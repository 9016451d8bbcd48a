/** Host spellings of IPv4 addresses, and which of them count as private. */
module Addresses {
  import opened Json
  import opened Text

  datatype Address = V4(n: nat) | V6(text: string)

  // `v6` parses addresses with a colon; `aton` is the platform's legacy parser, when it has one.
  datatype Net = Net(isGlobal: Address -> bool, v6: string -> Option<Address>, aton: Option<string -> Option<nat>>)

  // ---------------------------------------------------------------- digits

  /** The value of one digit in any base up to 16. */
  function DigitValue(c: char): Option<nat>
  {
    if '0' <= c <= '9' then Some((c as int - '0' as int) as nat)
    else if 'a' <= c <= 'f' then Some((c as int - 'a' as int + 10) as nat)
    else if 'A' <= c <= 'F' then Some((c as int - 'A' as int + 10) as nat)
    else None
  }

  predicate IsDigit(c: char, base: nat) { DigitValue(c).Some? && DigitValue(c).value < base }

  predicate AllDigits(s: string, base: nat) { forall i | 0 <= i < |s| :: IsDigit(s[i], base) }

  function ValueOf(digits: string, base: nat): nat
    requires AllDigits(digits, base)
  {
    if digits == "" then 0
    else
      assert IsDigit(digits[|digits| - 1], base);
      ValueOf(digits[..|digits| - 1], base) * base + DigitValue(digits[|digits| - 1]).value
  }

  // ---------------------------------------------------------------- legacy integers

  datatype Syntax = Syntax(digits: string, base: nat)

  /**
   * A lone integer as legacy parsers read it: hexadecimal behind 0x, octal behind another leading zero, decimal
   * otherwise.
   */
  function LegacyIntegerSyntax(text: string): (r: Option<Syntax>)
    ensures r.Some? ==> r.value.digits != "" && AllDigits(r.value.digits, r.value.base)
  {
    var syntax :=
      if |text| >= 2 && text[0] == '0' && (text[1] == 'x' || text[1] == 'X') then Syntax(text[2..], 16)
      else if |text| > 1 && text[0] == '0' then Syntax(text[1..], 8)
      else Syntax(text, 10);
    if syntax.digits == "" || !AllDigits(syntax.digits, syntax.base) then None else Some(syntax)
  }

  const MAX_DIGITS: nat := 32

  function LegacyIntegerValue(text: string): Option<nat>
  {
    var syntax := LegacyIntegerSyntax(text);
    if syntax.None? || |syntax.value.digits| > MAX_DIGITS then None
    else Some(ValueOf(syntax.value.digits, syntax.value.base))
  }

  /** Every dotted part is a legacy integer and one of them is longer than any address needs. */
  predicate OversizedNumericSpelling(host: string)
  {
    var parts := Split(host, '.');
    && (forall i | 0 <= i < |parts| :: LegacyIntegerSyntax(parts[i]).Some?)
    && exists i | 0 <= i < |parts| ::
         LegacyIntegerSyntax(parts[i]).Some? && |LegacyIntegerSyntax(parts[i]).value.digits| > MAX_DIGITS
  }

  // ---------------------------------------------------------------- addresses

  /** A part of a dotted quad: at most three decimal digits, no padding, at most 255. */
  predicate IsOctet(part: string)
  {
    && 1 <= |part| <= 3 && AllDigits(part, 10)
    && (|part| > 1 ==> part[0] != '0')
    && ValueOf(part, 10) <= 255
  }

  predicate IsQuad(parts: seq<string>) { |parts| == 4 && forall i | 0 <= i < 4 :: IsOctet(parts[i]) }

  function Quad(a: nat, b: nat, c: nat, d: nat): nat { ((a * 256 + b) * 256 + c) * 256 + d }

  function ParseAddress(net: Net, text: string): Option<Address>
  {
    if ':' in text then net.v6(text)
    else
      var parts := Split(text, '.');
      if IsQuad(parts) then
        Some(V4(Quad(ValueOf(parts[0], 10), ValueOf(parts[1], 10), ValueOf(parts[2], 10), ValueOf(parts[3], 10))))
      else None
  }

  const WRAP: nat := 0x1_0000_0000

  function AsIpAddress(net: Net, host: string): Option<Address>
  {
    var parsed := ParseAddress(net, host);
    if parsed.Some? then parsed
    else if net.aton.None? then None
    else
      var integer := LegacyIntegerValue(host);
      if integer.Some? then Some(V4(integer.value % WRAP))
      else
        var legacy := net.aton.value(host);
        if legacy.Some? then Some(V4(legacy.value)) else None
  }

  predicate IsDecimalQuad(parts: seq<string>)
  {
    |parts| == 4 && forall i | 0 <= i < 4 :: 1 <= |parts[i]| <= MAX_DIGITS && AllDigits(parts[i], 10)
  }

  /** The reading of four padded parts as decimal numbers. */
  function DecimalDottedCandidate(net: Net, host: string): Option<Address>
  {
    var parts := Split(host, '.');
    if !IsDecimalQuad(parts) then None
    else
      var normal := seq(4, i requires 0 <= i < 4 => DecimalText(ValueOf(parts[i], 10)));
      ParseAddress(net, Join(normal, '.'))
  }

  function BeforePercent(s: string): (r: string)
    ensures r <= s && '%' !in r
  {
    if s == "" || s[0] == '%' then "" else [s[0]] + BeforePercent(s[1..])
  }

  predicate IsPrivateLiteral(net: Net, hostname: Option<string>)
  {
    hostname.Some?
    && var host := BeforePercent(hostname.value);
       var primary, alternative := AsIpAddress(net, host), DecimalDottedCandidate(net, host);
       || OversizedNumericSpelling(host)
       || (primary.Some? && !net.isGlobal(primary.value))
       || (alternative.Some? && !net.isGlobal(alternative.value))
  }

  // ---------------------------------------------------------------- lone integers

  lemma {:induction false} BeforePercentCuts(s: string, zone: string)
    requires '%' !in s
    ensures BeforePercent(s) == s && BeforePercent(s + "%" + zone) == s
  {
    if s == "" {
      assert s + "%" + zone == "%" + zone;
    } else {
      var t := s + "%" + zone;
      assert t[0] == s[0] && t[1..] == s[1..] + "%" + zone;
      BeforePercentCuts(s[1..], zone);
    }
  }

  lemma DigitIsPlain(c: char, base: nat)
    requires IsDigit(c, base) || c == 'x' || c == 'X'
    ensures c != '.' && c != ':' && c != '%'
  {}

  /** A legacy integer holds no separator of any kind. */
  lemma LegacyIntegerIsPlain(text: string)
    requires LegacyIntegerSyntax(text).Some?
    ensures '.' !in text && ':' !in text && '%' !in text
  {
    var syntax := LegacyIntegerSyntax(text).value;
    var skip := |text| - |syntax.digits|;
    forall i | 0 <= i < |text| ensures text[i] != '.' && text[i] != ':' && text[i] != '%' {
      if i >= skip {
        assert text[i] == syntax.digits[i - skip];
        DigitIsPlain(text[i], syntax.base);
      } else {
        assert text[i] == '0' || text[i] == 'x' || text[i] == 'X';
      }
    }
  }

  lemma LoneInteger(net: Net, host: string)
    requires LegacyIntegerSyntax(host).Some?
    ensures var syntax := LegacyIntegerSyntax(host).value;
            && (OversizedNumericSpelling(host) <==> |syntax.digits| > MAX_DIGITS)
            && DecimalDottedCandidate(net, host) == None && ParseAddress(net, host) == None
  {
    LegacyIntegerIsPlain(host);
    SplitPart(host, '.');
    assert Split(host, '.')[0] == host;
  }

  /**
   * A lone integer, with or without a zone behind it, is private exactly when it has more than 32 digits or, where the
   * platform has a legacy parser, its value modulo 2^32 is no global address: the spelling does not matter.
   */
  lemma LoneIntegerIsPrivateIff(net: Net, host: string, zone: string)
    requires LegacyIntegerSyntax(host).Some?
    ensures var syntax := LegacyIntegerSyntax(host).value;
            var isPrivate := || |syntax.digits| > MAX_DIGITS
                            || (net.aton.Some? && !net.isGlobal(V4(ValueOf(syntax.digits, syntax.base) % WRAP)));
            && (IsPrivateLiteral(net, Some(host)) <==> isPrivate)
            && (IsPrivateLiteral(net, Some(host + "%" + zone)) <==> isPrivate)
  {
    hide LegacyIntegerSyntax, OversizedNumericSpelling, DecimalDottedCandidate, ParseAddress, BeforePercent, ValueOf;
    LegacyIntegerIsPlain(host);
    BeforePercentCuts(host, zone);
    LoneInteger(net, host);
  }

  /** Two spellings of integers that agree modulo 2^32, in whatever bases, are classed alike. */
  lemma SpellingsAgree(net: Net, host: string, other: string)
    requires LegacyIntegerValue(host).Some? && LegacyIntegerValue(other).Some?
    requires LegacyIntegerValue(host).value % WRAP == LegacyIntegerValue(other).value % WRAP
    ensures IsPrivateLiteral(net, Some(host)) <==> IsPrivateLiteral(net, Some(other))
  {
    hide LegacyIntegerSyntax, IsPrivateLiteral, ValueOf;
    LoneIntegerIsPrivateIff(net, host, "");
    LoneIntegerIsPrivateIff(net, other, "");
  }

  // ---------------------------------------------------------------- rendering

  lemma DigitCharValue(d: nat, base: nat)
    requires d < base <= 16
    ensures DigitValue(DigitChar(d)) == Some(d) && IsDigit(DigitChar(d), base)
    ensures DigitChar(d) != 'x' && DigitChar(d) != 'X' && (DigitChar(d) == '0' <==> d == 0)
  {}

  lemma ValueOfSnoc(digits: string, d: nat, base: nat)
    requires AllDigits(digits, base) && d < base <= 16
    ensures AllDigits(digits + [DigitChar(d)], base)
    ensures ValueOf(digits + [DigitChar(d)], base) == ValueOf(digits, base) * base + d
  {
    hide DigitValue, DigitChar;
    DigitCharValue(d, base);
    var s := digits + [DigitChar(d)];
    assert s[..|s| - 1] == digits && s[|s| - 1] == DigitChar(d);
    assert forall i | 0 <= i < |digits| :: s[i] == digits[i];
  }

  lemma {:induction false} ValueOfNumeral(n: nat, base: nat)
    requires 2 <= base <= 16
    ensures AllDigits(Numeral(n, base), base) && ValueOf(Numeral(n, base), base) == n
    decreases n
  {
    hide AllDigits, ValueOf, DigitChar;
    if n < base {
      Digitless(base);
      ValueOfSnoc("", n, base);
      assert "" + [DigitChar(n)] == [DigitChar(n)];
    } else {
      SmallerQuotient(n, base);
      ValueOfNumeral(n / base, base);
      ValueOfSnoc(Numeral(n / base, base), n % base, base);
    }
  }

  lemma SmallerQuotient(n: nat, base: nat)
    requires 2 <= base <= n
    ensures 0 < n / base < n && n / base * base + n % base == n
  {
    assert n == n / base * base + n % base;
  }

  lemma Digitless(base: nat)
    ensures AllDigits("", base) && ValueOf("", base) == 0
  {}

  function Zeros(k: nat): string { seq(k, _ => '0') }

  lemma {:induction false} ZerosChangeNothing(k: nat, digits: string, base: nat)
    requires base > 0 && AllDigits(digits, base)
    ensures AllDigits(Zeros(k) + digits, base) && ValueOf(Zeros(k) + digits, base) == ValueOf(digits, base)
    decreases k + |digits|
  {
    var s := Zeros(k) + digits;
    assert AllDigits(s, base);
    if digits != "" {
      var shorter := digits[..|digits| - 1];
      assert s[..|s| - 1] == Zeros(k) + shorter;
      ZerosChangeNothing(k, shorter, base);
    } else if k > 0 {
      assert s[..|s| - 1] == Zeros(k - 1) + "";
      ZerosChangeNothing(k - 1, "", base);
    } else {
      assert s == "";
    }
  }

  /** The spellings of a number: decimal without padding, octal and hexadecimal with any. */
  function Spelling(n: nat, base: nat, padding: nat): string
    requires base in {8, 10, 16}
  {
    if base == 10 then Numeral(n, 10)
    else if base == 8 then "0" + (Zeros(padding) + Numeral(n, 8))
    else "0x" + (Zeros(padding) + Numeral(n, 16))
  }

  /** The first digit of a number: zero only for zero itself. */
  lemma {:induction false} NumeralLeads(n: nat, base: nat)
    requires 2 <= base <= 16
    ensures var s := Numeral(n, base);
            s[0] != 'x' && s[0] != 'X' && (s[0] == '0' <==> n == 0) && (n == 0 ==> |s| == 1)
    decreases n
  {
    hide DigitChar;
    if n < base {
      DigitCharValue(n, base);
    } else {
      NumeralLeads(n / base, base);
      assert Numeral(n, base)[0] == Numeral(n / base, base)[0];
    }
  }

  /** Reading back any spelling gives its base and the number. */
  lemma SpellingReadsBack(n: nat, base: nat, padding: nat)
    requires base in {8, 10, 16}
    ensures var syntax := LegacyIntegerSyntax(Spelling(n, base, padding));
            syntax.Some? && syntax.value.base == base && ValueOf(syntax.value.digits, base) == n
  {
    hide ValueOf, AllDigits, Numeral, LegacyIntegerSyntax, Zeros;
    var digits := Numeral(n, base);
    ValueOfNumeral(n, base);
    NumeralLeads(n, base);
    ZerosChangeNothing(padding, digits, base);
    if base == 10 {
      DecimalSyntax(digits);
    } else {
      PaddedLeads(padding, digits);
      PaddedSyntax(Zeros(padding) + digits, base);
    }
  }

  lemma PaddedLeads(padding: nat, digits: string)
    requires digits != ""
    ensures (Zeros(padding) + digits)[0] == if padding > 0 then '0' else digits[0]
  {}

  lemma DecimalSyntax(digits: string)
    requires digits != "" && AllDigits(digits, 10) && (digits[0] == '0' ==> |digits| == 1)
    ensures LegacyIntegerSyntax(digits) == Some(Syntax(digits, 10))
  {
    hide AllDigits;
  }

  lemma PaddedSyntax(padded: string, base: nat)
    requires padded != "" && padded[0] != 'x' && padded[0] != 'X' && base in {8, 16} && AllDigits(padded, base)
    ensures LegacyIntegerSyntax((if base == 8 then "0" else "0x") + padded) == Some(Syntax(padded, base))
  {
    hide AllDigits;
    var text := (if base == 8 then "0" else "0x") + padded;
    assert text[|text| - |padded|..] == padded;
  }

  // ---------------------------------------------------------------- dotted quads

  lemma OctetWidth(n: nat)
    requires n <= 255
    ensures |Numeral(n, 10)| <= 3 && (|Numeral(n, 10)| > 1 ==> n >= 10)
  {
    if n >= 10 {
      assert n / 10 < 26;
      assert |Numeral(n, 10)| == 1 + |Numeral(n / 10, 10)|;
      if n / 10 >= 10 { assert n / 10 / 10 < 10; }
    }
  }

  lemma OctetText(n: nat)
    requires n <= 255
    ensures IsOctet(DecimalText(n)) && ValueOf(DecimalText(n), 10) == n
    ensures Without(DecimalText(n), '.') && ':' !in DecimalText(n)
  {
    ValueOfNumeral(n, 10);
    NumeralLeads(n, 10);
    OctetWidth(n);
    var s := DecimalText(n);
    forall i | 0 <= i < |s| ensures s[i] != '.' && s[i] != ':' {
      DigitIsPlain(s[i], 10);
    }
  }

  lemma QuadReadsBack(net: Net, a: nat, b: nat, c: nat, d: nat)
    requires a <= 255 && b <= 255 && c <= 255 && d <= 255
    ensures ParseAddress(net, Join([DecimalText(a), DecimalText(b), DecimalText(c), DecimalText(d)], '.'))
            == Some(V4(Quad(a, b, c, d)))
  {
    hide DecimalText, Split, ValueOf, IsOctet;
    var parts := [DecimalText(a), DecimalText(b), DecimalText(c), DecimalText(d)];
    OctetText(a);
    OctetText(b);
    OctetText(c);
    OctetText(d);
    SplitJoin(parts, '.');
    NoColon(parts);
  }

  lemma {:induction false} NoColon(parts: seq<string>)
    requires forall i | 0 <= i < |parts| :: ':' !in parts[i]
    ensures ':' !in Join(parts, '.')
  {
    if |parts| > 1 { NoColon(parts[1..]); }
  }

  /**
   * Four decimal parts of at most 255, however padded: a host whose decimal reading is not global is always private.
   */
  lemma DecimalReadingIsChecked(net: Net, host: string)
    requires '%' !in host
    requires var parts := Split(host, '.'); IsDecimalQuad(parts) && forall i | 0 <= i < 4 ::
             ValueOf(parts[i], 10) <= 255
    ensures var parts := Split(host, '.');
            !net.isGlobal(V4(Quad(ValueOf(parts[0], 10), ValueOf(parts[1], 10), ValueOf(parts[2], 10),
                ValueOf(parts[3], 10))))
            ==> IsPrivateLiteral(net, Some(host))
  {
    hide DecimalText, ParseAddress, OversizedNumericSpelling, AsIpAddress, Split, Join, BeforePercent, ValueOf;
    var parts := Split(host, '.');
    var a, b, c, d := ValueOf(parts[0], 10), ValueOf(parts[1], 10), ValueOf(parts[2], 10), ValueOf(parts[3], 10);
    BeforePercentCuts(host, "");
    QuadReadsBack(net, a, b, c, d);
    assert seq(4, i requires 0 <= i < 4 => DecimalText(ValueOf(parts[i], 10)))
        == [DecimalText(a), DecimalText(b), DecimalText(c), DecimalText(d)];
  }

  // ---------------------------------------------------------------- which texts are integers

  lemma LowerDigit(c: char)
    ensures DigitValue(Lower(c)) == DigitValue(c)
    ensures Lower(c) != 'X' && (Lower(c) == 'x' <==> c == 'x' || c == 'X')
    ensures Lower(c) == '0' <==> c == '0'
  {}

  lemma {:induction false} ValueOfLower(digits: string, base: nat)
    ensures AllDigits(LowerAll(digits), base) <==> AllDigits(digits, base)
    ensures AllDigits(digits, base) ==> ValueOf(LowerAll(digits), base) == ValueOf(digits, base)
  {
    hide DigitValue, Lower;
    forall i | 0 <= i < |digits| ensures IsDigit(LowerAll(digits)[i], base) <==> IsDigit(digits[i], base) {
      LowerDigit(digits[i]);
    }
    if digits != "" && AllDigits(digits, base) {
      var n := |digits| - 1;
      ValueOfLower(digits[..n], base);
      assert LowerAll(digits)[..n] == LowerAll(digits[..n]);
      LowerDigit(digits[n]);
    }
  }

  lemma LowerSyntax(text: string)
    ensures var (a, b) := (LegacyIntegerSyntax(text), LegacyIntegerSyntax(LowerAll(text)));
            && (a.Some? <==> b.Some?)
            && (a.Some? ==> b.value == Syntax(LowerAll(a.value.digits), a.value.base))
  {
    hide AllDigits, ValueOf, Lower;
    if text != "" {
      LowerDigit(text[0]);
      assert LowerAll(text)[0] == Lower(text[0]);
    }
    if |text| > 1 {
      LowerDigit(text[1]);
      assert LowerAll(text)[1] == Lower(text[1]);
      assert LowerAll(text)[1..] == LowerAll(text[1..]) && LowerAll(text)[2..] == LowerAll(text[2..]);
      ValueOfLower(text[1..], 8);
      ValueOfLower(text[2..], 16);
    }
    ValueOfLower(text, 10);
  }

  /** The case of letters does not matter. */
  lemma LowerValue(text: string)
    ensures LegacyIntegerValue(LowerAll(text)) == LegacyIntegerValue(text)
  {
    hide LegacyIntegerSyntax, ValueOf, Lower;
    LowerSyntax(text);
    var syntax := LegacyIntegerSyntax(text);
    if syntax.Some? { ValueOfLower(syntax.value.digits, syntax.value.base); }
  }

  lemma LowerChar(c: char, base: nat)
    requires base <= 16 && IsDigit(c, base) && Lower(c) == c
    ensures DigitChar(DigitValue(c).value) == c
  {}

  /** A text of digits is its value's numeral behind zeros. */
  lemma {:induction false} DigitsAreNumeral(s: string, base: nat) returns (k: nat)
    requires 2 <= base <= 16 && s != "" && AllDigits(s, base) && LowerAll(s) == s
    ensures s == Zeros(k) + Numeral(ValueOf(s, base), base)
  {
    hide DigitValue, DigitChar, Lower;
    var n := |s| - 1;
    var init, c := s[..n], s[n];
    assert IsDigit(c, base) && LowerAll(s)[n] == Lower(c);
    LowerChar(c, base);
    var d := DigitValue(c).value;
    assert s == init + [c];
    if init == "" {
      k := 0;
      NumeralOfDigit(d, base);
      assert ValueOf(init, base) == 0;
      assert Zeros(0) + [c] == s;
    } else {
      assert LowerAll(s)[..n] == LowerAll(init);
      k := DigitsAreNumeral(init, base);
      var v := ValueOf(init, base);
      assert ValueOf(s, base) == v * base + d;
      NumeralExtends(v, d, base);
      if v == 0 {
        NumeralOfDigit(0, base);
        NumeralOfDigit(d, base);
        ZeroChar();
        assert Zeros(k) + "0" == Zeros(k + 1);
        k := k + 1;
      } else {
        assert Zeros(k) + Numeral(v, base) + [c] == Zeros(k) + (Numeral(v, base) + [c]);
      }
    }
  }

  lemma ZeroChar()
    ensures [DigitChar(0)] == "0"
  {}

  lemma NumeralOfDigit(d: nat, base: nat)
    requires d < base <= 16 && base >= 2
    ensures Numeral(d, base) == [DigitChar(d)]
  {}

  lemma NumeralExtends(v: nat, d: nat, base: nat)
    requires 2 <= base <= 16 && d < base
    ensures v > 0 ==> Numeral(v * base + d, base) == Numeral(v, base) + [DigitChar(d)]
    ensures v == 0 ==> v * base + d == d
  {
    if v > 0 {
      QuotientOf(v, d, base);
    }
  }

  lemma QuotientOf(v: nat, d: nat, base: nat)
    requires d < base && v > 0
    ensures v * base + d >= base && (v * base + d) / base == v && (v * base + d) % base == d
  {
    var n := v * base + d;
    assert n == n / base * base + n % base;
    assert (n / base - v) * base == d - n % base;
    SmallMultiple(n / base - v, base);
    SmallMultiple(1 - v, base);
  }

  lemma SmallMultiple(k: int, base: int)
    requires base > 0
    ensures -base < k * base < base ==> k == 0
    ensures k <= 0 ==> k * base <= 0
  {
    var more, less := k - 1, -k - 1;
    assert more >= 0 ==> more * base >= 0;
    assert less >= 0 ==> less * base >= 0;
    assert k * base == more * base + base && k * base == -(less * base) - base;
  }

  /**
   * A text stands for an integer exactly when it is, up to the case of its letters, one of that integer's spellings
   * with at most 32 digits.
   */
  lemma ValueIffSpelled(text: string, n: nat)
    ensures LegacyIntegerValue(text) == Some(n) <==>
            exists base, padding :: base in {8, 10, 16} && LowerAll(text) == Spelling(n, base, padding)
                                    && WidthOf(n, base, padding) <= MAX_DIGITS
  {
    hide LegacyIntegerValue, Spelling, WidthOf, LowerAll;
    LowerValue(text);
    var lower := LowerAll(text);
    if LegacyIntegerValue(lower) == Some(n) {
      LowerTwice(text);
      var base, padding := SpellingOf(lower, n);
    }
    forall base, padding: nat | base in {8, 10, 16} && lower == Spelling(n, base, padding)
                                && WidthOf(n, base, padding) <= MAX_DIGITS
      ensures LegacyIntegerValue(lower) == Some(n)
    {
      SpelledHasValue(n, base, padding);
    }
  }

  function WidthOf(n: nat, base: nat, padding: nat): nat
    requires base in {8, 10, 16}
  {
    |Numeral(n, base)| + if base == 10 then 0 else padding
  }

  lemma LowerTwice(text: string)
    ensures LowerAll(LowerAll(text)) == LowerAll(text)
  {}

  lemma SyntaxShape(text: string)
    requires LegacyIntegerSyntax(text).Some? && LowerAll(text) == text
    ensures var syntax := LegacyIntegerSyntax(text).value;
            && syntax.base in {8, 10, 16} && LowerAll(syntax.digits) == syntax.digits
            && (syntax.base == 16 ==> text == "0x" + syntax.digits)
            && (syntax.base == 8 ==> text == "0" + syntax.digits)
            && (syntax.base == 10 ==> text == syntax.digits && (|text| > 1 ==> text[0] != '0'))
  {
    hide AllDigits, Lower;
    var syntax := LegacyIntegerSyntax(text).value;
    var skip := |text| - |syntax.digits|;
    assert text[skip..] == syntax.digits && LowerAll(text)[skip..] == LowerAll(syntax.digits);
    if |text| > 1 {
      assert LowerAll(text)[1] == Lower(text[1]);
      LowerDigit(text[1]);
    }
  }

  lemma PaddingShows(k: nat, numeral: string)
    requires numeral != ""
    ensures var s := Zeros(k) + numeral; |s| == k + |numeral| && (k > 0 ==> s[0] == '0' && |s| > 1)
  {}

  lemma SpellingOf(text: string, n: nat) returns (base: nat, padding: nat)
    requires LegacyIntegerValue(text) == Some(n) && LowerAll(text) == text
    ensures base in {8, 10, 16} && text == Spelling(n, base, padding) && WidthOf(n, base, padding) <= MAX_DIGITS
  {
    hide ValueOf, AllDigits, Numeral, Lower, Zeros, LegacyIntegerSyntax, LowerAll;
    var syntax := LegacyIntegerSyntax(text).value;
    SyntaxShape(text);
    base := syntax.base;
    padding := DigitsAreNumeral(syntax.digits, base);
    PaddingShows(padding, Numeral(n, base));
    if base == 10 {
      assert padding == 0;
      NoPadding(Numeral(n, 10));
    }
  }

  lemma NoPadding(numeral: string)
    ensures Zeros(0) + numeral == numeral
  {}

  lemma SpelledHasValue(n: nat, base: nat, padding: nat)
    requires base in {8, 10, 16} && WidthOf(n, base, padding) <= MAX_DIGITS
    ensures LegacyIntegerValue(Spelling(n, base, padding)) == Some(n)
  {
    hide ValueOf, AllDigits, Numeral, LegacyIntegerSyntax, Zeros;
    SpellingReadsBack(n, base, padding);
    SpelledDigits(n, base, padding);
  }

  lemma SpelledDigits(n: nat, base: nat, padding: nat)
    requires base in {8, 10, 16} && LegacyIntegerSyntax(Spelling(n, base, padding)).Some?
    requires LegacyIntegerSyntax(Spelling(n, base, padding)).value.base == base
    ensures |LegacyIntegerSyntax(Spelling(n, base, padding)).value.digits| == WidthOf(n, base, padding)
  {
    hide AllDigits, Numeral;
  }

  // ---------------------------------------------------------------- every other host

  lemma DigitsAreLower(s: string)
    requires AllDigits(s, 10)
    ensures LowerAll(s) == s
  {}

  /** The parts of a canonical dotted quad are the numerals up to 255. */
  lemma OctetIff(part: string)
    ensures IsOctet(part) <==> exists n: nat :: n <= 255 && part == DecimalText(n)
  {
    hide AllDigits, ValueOf, Numeral, Zeros, LowerAll;
    if IsOctet(part) {
      DigitsAreLower(part);
      var k := DigitsAreNumeral(part, 10);
      PaddingShows(k, Numeral(ValueOf(part, 10), 10));
      assert k == 0;
      NoPadding(Numeral(ValueOf(part, 10), 10));
      assert ValueOf(part, 10) <= 255 && part == DecimalText(ValueOf(part, 10));
    }
    forall n: nat | n <= 255 && part == DecimalText(n) ensures IsOctet(part) {
      OctetText(n);
    }
  }

  lemma ShortIsNotOversized(parts: seq<string>)
    requires forall i | 0 <= i < |parts| :: |parts[i]| <= MAX_DIGITS
    ensures forall i | 0 <= i < |parts| && LegacyIntegerSyntax(parts[i]).Some? ::
              |LegacyIntegerSyntax(parts[i]).value.digits| <= MAX_DIGITS
  {
    hide AllDigits;
  }

  /** All the dotted parts of the host are legacy integers, and one of them has more than 32 digits. */
  predicate TooLong(parts: seq<string>)
  {
    && (forall i | 0 <= i < |parts| :: LegacyIntegerSyntax(parts[i]).Some?)
    && exists i | 0 <= i < |parts| ::
         LegacyIntegerSyntax(parts[i]).Some? && |LegacyIntegerSyntax(parts[i]).value.digits| > 32
  }

  function QuadText(a: nat, b: nat, c: nat, d: nat): string
  {
    Join([DecimalText(a), DecimalText(b), DecimalText(c), DecimalText(d)], '.')
  }

  lemma QuadParts(a: nat, b: nat, c: nat, d: nat)
    requires a <= 255 && b <= 255 && c <= 255 && d <= 255
    ensures Split(QuadText(a, b, c, d), '.') == [DecimalText(a), DecimalText(b), DecimalText(c), DecimalText(d)]
    ensures '%' !in QuadText(a, b, c, d)
    ensures forall part | part in [DecimalText(a), DecimalText(b), DecimalText(c), DecimalText(d)] ::
              |part| <= 3 && IsOctet(part)
  {
    hide DecimalText, Split, Join, ValueOf, AllDigits;
    var parts := [DecimalText(a), DecimalText(b), DecimalText(c), DecimalText(d)];
    OctetText(a);
    OctetText(b);
    OctetText(c);
    OctetText(d);
    OctetPlain(a);
    OctetPlain(b);
    OctetPlain(c);
    OctetPlain(d);
    SplitJoin(parts, '.');
    NoneInJoin(parts, '%');
  }

  lemma OctetPlain(n: nat)
    requires n <= 255
    ensures '%' !in DecimalText(n)
  {
    OctetText(n);
    var s := DecimalText(n);
    forall i | 0 <= i < |s| ensures s[i] != '%' {
      DigitIsPlain(s[i], 10);
    }
  }

  lemma {:induction false} NoneInJoin(parts: seq<string>, c: char)
    requires c != '.' && forall i | 0 <= i < |parts| :: c !in parts[i]
    ensures c !in Join(parts, '.')
  {
    if |parts| > 1 { NoneInJoin(parts[1..], c); }
  }

  /** A canonical dotted quad is private exactly when the address it names is not global, with or without a parser. */
  lemma QuadIsPrivateIff(net: Net, a: nat, b: nat, c: nat, d: nat, zone: string)
    requires a <= 255 && b <= 255 && c <= 255 && d <= 255
    ensures var host, isPrivate := QuadText(a, b, c, d), !net.isGlobal(V4(((a * 256 + b) * 256 + c) * 256 + d));
            && (IsPrivateLiteral(net, Some(host)) <==> isPrivate)
            && (IsPrivateLiteral(net, Some(host + "%" + zone)) <==> isPrivate)
  {
    hide DecimalText, Split, Join, ValueOf, AllDigits, BeforePercent, LegacyIntegerSyntax, ParseAddress, IsOctet;
    var host := QuadText(a, b, c, d);
    QuadParts(a, b, c, d);
    BeforePercentCuts(host, zone);
    QuadReadsBack(net, a, b, c, d);
    ShortIsNotOversized(Split(host, '.'));
    QuadCandidate(net, a, b, c, d);
  }

  lemma QuadCandidate(net: Net, a: nat, b: nat, c: nat, d: nat)
    requires a <= 255 && b <= 255 && c <= 255 && d <= 255
    ensures DecimalDottedCandidate(net, QuadText(a, b, c, d)) == Some(V4(Quad(a, b, c, d)))
  {
    hide DecimalText, Split, Join, ValueOf, AllDigits, ParseAddress, IsOctet;
    var host := QuadText(a, b, c, d);
    QuadParts(a, b, c, d);
    OctetsAreDigits(Split(host, '.'));
    QuadReadsBack(net, a, b, c, d);
    OctetText(a);
    OctetText(b);
    OctetText(c);
    OctetText(d);
    var parts := Split(host, '.');
    if IsDecimalQuad(parts) {
      assert seq(4, i requires 0 <= i < 4 => DecimalText(ValueOf(parts[i], 10)))
          == [DecimalText(a), DecimalText(b), DecimalText(c), DecimalText(d)];
    }
  }

  lemma OctetsAreDigits(parts: seq<string>)
    requires forall i | 0 <= i < |parts| :: IsOctet(parts[i])
    ensures forall i | 0 <= i < |parts| :: 1 <= |parts[i]| <= MAX_DIGITS && AllDigits(parts[i], 10)
  {
    hide AllDigits, ValueOf;
  }

  lemma {:induction false} SplitKeeps(s: string, sep: char, c: char)
    requires c in s && c != sep
    ensures exists i | 0 <= i < |Split(s, sep)| :: c in Split(s, sep)[i]
  {
    if s[0] == c {
      assert c in Split(s, sep)[0];
    } else {
      SplitKeeps(s[1..], sep, c);
      var later := Split(s[1..], sep);
      var i :| 0 <= i < |later| && c in later[i];
      if s[0] == sep {
        assert c in Split(s, sep)[i + 1];
      } else {
        assert c in Split(s, sep)[i];
      }
    }
  }

  lemma ColonIsNoDigit(part: string)
    requires ':' in part
    ensures !AllDigits(part, 10) && LegacyIntegerSyntax(part).None?
  {
    if LegacyIntegerSyntax(part).Some? { LegacyIntegerIsPlain(part); }
    if AllDigits(part, 10) {
      var i :| 0 <= i < |part| && part[i] == ':';
      DigitIsPlain(part[i], 10);
    }
  }

  /** What the platform's legacy parser makes of the host, where there is one, is no global address. */
  predicate LegacyNonGlobal(net: Net, host: string)
  {
    net.aton.Some? && net.aton.value(host).Some? && !net.isGlobal(V4(net.aton.value(host).value))
  }

  /** A host with a colon is what the reader of IPv6 text makes of it, and only failing that the legacy parser. */
  lemma ColonIsPrivateIff(net: Net, host: string)
    requires ':' in host && '%' !in host
    ensures IsPrivateLiteral(net, Some(host)) <==>
            if net.v6(host).Some? then !net.isGlobal(net.v6(host).value) else LegacyNonGlobal(net, host)
  {
    hide Split, AllDigits, LegacyIntegerSyntax, BeforePercent, ValueOf, DecimalText, Join;
    BeforePercentCuts(host, "");
    SplitKeeps(host, '.', ':');
    var parts := Split(host, '.');
    var i :| 0 <= i < |parts| && ':' in parts[i];
    ColonIsNoDigit(parts[i]);
    ColonIsNoDigit(host);
  }

  ghost predicate IsQuadText(host: string)
  {
    exists a: nat, b: nat, c: nat, d: nat ::
      a <= 255 && b <= 255 && c <= 255 && d <= 255 && host == QuadText(a, b, c, d)
  }

  /** The host is four parts of decimal digits, and read as decimal, padding or not, they name an address. */
  predicate NamesInDecimal(parts: seq<string>)
  {
    && |parts| == 4
    && forall i | 0 <= i < 4 :: 1 <= |parts[i]| <= 32 && AllDigits(parts[i], 10) && ValueOf(parts[i], 10) <= 255
  }

  function NamedInDecimal(parts: seq<string>): Address
    requires NamesInDecimal(parts)
  {
    V4(((ValueOf(parts[0], 10) * 256 + ValueOf(parts[1], 10)) * 256 + ValueOf(parts[2], 10)) * 256
       + ValueOf(parts[3], 10))
  }

  lemma QuadTextIff(host: string)
    ensures IsQuad(Split(host, '.')) <==> IsQuadText(host)
  {
    hide Split, Join, DecimalText, IsOctet;
    var parts := Split(host, '.');
    if IsQuad(parts) {
      OctetIff(parts[0]);
      OctetIff(parts[1]);
      OctetIff(parts[2]);
      OctetIff(parts[3]);
      var a: nat :| a <= 255 && parts[0] == DecimalText(a);
      var b: nat :| b <= 255 && parts[1] == DecimalText(b);
      var c: nat :| c <= 255 && parts[2] == DecimalText(c);
      var d: nat :| d <= 255 && parts[3] == DecimalText(d);
      assert parts == [DecimalText(a), DecimalText(b), DecimalText(c), DecimalText(d)];
      JoinSplit(host, '.');
      assert host == QuadText(a, b, c, d);
    }
    if IsQuadText(host) {
      var a: nat, b: nat, c: nat, d: nat :|
        a <= 255 && b <= 255 && c <= 255 && d <= 255 && host == QuadText(a, b, c, d);
      QuadParts(a, b, c, d);
    }
  }

  lemma {:induction false} JoinSplit(s: string, sep: char)
    ensures Join(Split(s, sep), sep) == s
  {
    if s != "" {
      JoinSplit(s[1..], sep);
      var later := Split(s[1..], sep);
      if s[0] == sep {
        assert Split(s, sep)[1..] == later;
      } else {
        assert Split(s, sep)[1..] == later[1..];
      }
    }
  }

  lemma DecimalCandidate(net: Net, host: string)
    ensures var parts := Split(host, '.');
            DecimalDottedCandidate(net, host)
            == if NamesInDecimal(parts) then Some(NamedInDecimal(parts)) else None
  {
    hide Split, Join, DecimalText, AllDigits, ValueOf, ParseAddress, IsOctet;
    var parts := Split(host, '.');
    if IsDecimalQuad(parts) {
      var a, b, c, d := ValueOf(parts[0], 10), ValueOf(parts[1], 10), ValueOf(parts[2], 10), ValueOf(parts[3], 10);
      var normal := [DecimalText(a), DecimalText(b), DecimalText(c), DecimalText(d)];
      assert seq(4, i requires 0 <= i < 4 => DecimalText(ValueOf(parts[i], 10))) == normal;
      if NamesInDecimal(parts) {
        QuadReadsBack(net, a, b, c, d);
      } else {
        TooGreat(net, a, b, c, d);
      }
    }
  }

  lemma NumeralPlain(n: nat)
    ensures '.' !in DecimalText(n) && ':' !in DecimalText(n)
  {
    hide Numeral;
    ValueOfNumeral(n, 10);
    var s := DecimalText(n);
    forall i | 0 <= i < |s| ensures s[i] != '.' && s[i] != ':' {
      DigitIsPlain(s[i], 10);
    }
  }

  lemma OctetNumeral(n: nat)
    ensures IsOctet(DecimalText(n)) ==> n <= 255
  {
    hide Numeral, AllDigits, ValueOf;
    ValueOfNumeral(n, 10);
  }

  lemma TooGreat(net: Net, a: nat, b: nat, c: nat, d: nat)
    requires a > 255 || b > 255 || c > 255 || d > 255
    ensures ParseAddress(net, QuadText(a, b, c, d)) == None
  {
    hide Split, Join, DecimalText, AllDigits, ValueOf, IsOctet;
    var parts := [DecimalText(a), DecimalText(b), DecimalText(c), DecimalText(d)];
    NumeralPlain(a);
    NumeralPlain(b);
    NumeralPlain(c);
    NumeralPlain(d);
    SplitJoin(parts, '.');
    NoneInJoin(parts, ':');
    OctetNumeral(a);
    OctetNumeral(b);
    OctetNumeral(c);
    OctetNumeral(d);
    assert parts[0] == DecimalText(a) && parts[1] == DecimalText(b);
    assert parts[2] == DecimalText(c) && parts[3] == DecimalText(d);
  }

  /**
   * Any other host, which is neither a canonical quad nor a lone integer, is private exactly when all its parts are
   * integers and one too long to be any, or the legacy parser makes something non-global of it, or its decimal reading
   * is non-global. And nothing is private without a host.
   */
  lemma OtherHostIsPrivateIff(net: Net, host: string)
    requires '%' !in host && ':' !in host && !IsQuadText(host) && LegacyIntegerSyntax(host).None?
    ensures var parts := Split(host, '.');
            IsPrivateLiteral(net, Some(host)) <==>
            || TooLong(parts)
            || LegacyNonGlobal(net, host)
            || (NamesInDecimal(parts) && !net.isGlobal(NamedInDecimal(parts)))
    ensures !IsPrivateLiteral(net, None)
  {
    hide Split, AllDigits, LegacyIntegerSyntax, BeforePercent, ValueOf, DecimalText, Join, IsOctet, NamesInDecimal,
        DecimalDottedCandidate, IsQuadText, NamedInDecimal;
    BeforePercentCuts(host, "");
    QuadTextIff(host);
    DecimalCandidate(net, host);
  }
}
