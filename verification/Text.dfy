/** Characters as Python's string methods see them. */
module Text {

  /** Whitespace as `str.strip` and `str.split` understand it. */
  predicate IsSpace(c: char)
  {
    var code := c as int;
    || 9 <= code <= 13 || 28 <= code <= 32 || code == 0x85 || code == 0xA0 || code == 0x1680
    || 0x2000 <= code <= 0x200A || code == 0x2028 || code == 0x2029 || code == 0x202F || code == 0x205F
        || code == 0x3000
  }

  predicate IsBlank(s: string) { forall i | 0 <= i < |s| :: IsSpace(s[i]) }

  /** The characters that count as whitespace, by their codes. */
  lemma Spaces(c: char)
    ensures IsSpace(c) <==>
            c as int in {9, 10, 11, 12, 13, 28, 29, 30, 31, 32, 133, 160, 5760, 8192, 8193, 8194, 8195, 8196, 8197,
                         8198, 8199, 8200, 8201, 8202, 8232, 8233, 8239, 8287, 12288}
  {}

  /** The six ASCII whitespace characters. */
  predicate IsAsciiSpace(c: char) { 9 <= c as int <= 13 || c == ' ' }

  /** They are these. */
  lemma AsciiSpaces(c: char)
    ensures IsAsciiSpace(c) <==> c in " \t\r\n\U{000c}\U{000b}"
  {
    var six := " \t\r\n\U{000c}\U{000b}";
    assert six[0] == ' ' && six[1] as int == 9 && six[2] as int == 13 && six[3] as int == 10;
    assert six[4] as int == 12 && six[5] as int == 11;
  }

  function DropAsciiSpace(s: string): (r: string)
    ensures |r| <= |s|
  {
    if s != "" && IsAsciiSpace(s[0]) then DropAsciiSpace(s[1..]) else s
  }

  function Lower(c: char): char
  {
    if 'A' <= c <= 'Z' then (c as int + 32) as char else c
  }

  function LowerAll(s: string): string { seq(|s|, i requires 0 <= i < |s| => Lower(s[i])) }

  /** Lower case changes the 26 letters ... */
  lemma LowerOfCapital(i: nat)
    requires i < 26
    ensures Lower("ABCDEFGHIJKLMNOPQRSTUVWXYZ"[i]) == "abcdefghijklmnopqrstuvwxyz"[i]
  {}

  /** ... and nothing else. */
  lemma LowerOfOther(c: char)
    requires c < 'A' || c > 'Z'
    ensures Lower(c) == c
  {}

  predicate StartsWith(s: string, prefix: string) { prefix <= s }

  // ---------------------------------------------------------------- splitting at a separator

  predicate Without(s: string, sep: char) { sep !in s }

  function Split(s: string, sep: char): (parts: seq<string>)
    ensures parts != [] && forall i | 0 <= i < |parts| :: Without(parts[i], sep)
  {
    if s == "" then [""]
    else
      var parts := Split(s[1..], sep);
      if s[0] == sep then [""] + parts else [[s[0]] + parts[0]] + parts[1..]
  }

  function Join(parts: seq<string>, sep: char): string
  {
    if parts == [] then "" else if |parts| == 1 then parts[0] else parts[0] + [sep] + Join(parts[1..], sep)
  }

  lemma {:induction false} SplitPart(s: string, sep: char)
    requires Without(s, sep)
    ensures Split(s, sep) == [s]
  {
    if s != "" {
      assert s[0] in s;
      SplitPart(s[1..], sep);
      assert [s[0]] + s[1..] == s;
    }
  }

  lemma {:induction false} SplitAppend(a: string, b: string, sep: char)
    ensures Split(a + [sep] + b, sep) == Split(a, sep) + Split(b, sep)
  {
    if a == "" {
      assert a + [sep] + b == [sep] + b;
    } else {
      var s := a + [sep] + b;
      assert s[0] == a[0] && s[1..] == a[1..] + [sep] + b;
      SplitAppend(a[1..], b, sep);
    }
  }

  /** Splitting undoes joining. */
  lemma {:induction false} SplitJoin(parts: seq<string>, sep: char)
    requires parts != [] && forall i | 0 <= i < |parts| :: Without(parts[i], sep)
    ensures Split(Join(parts, sep), sep) == parts
  {
    SplitPart(parts[0], sep);
    if |parts| > 1 {
      SplitJoin(parts[1..], sep);
      SplitAppend(parts[0], Join(parts[1..], sep), sep);
    }
  }

  lemma {:induction false} JoinAppend(a: seq<string>, b: seq<string>, sep: char)
    requires a != [] && b != []
    ensures Join(a + b, sep) == Join(a, sep) + [sep] + Join(b, sep)
  {
    assert (a + b)[0] == a[0] && (a + b)[1..] == a[1..] + b;
    if |a| > 1 { JoinAppend(a[1..], b, sep); }
  }

  // ---------------------------------------------------------------- numerals

  function DigitChar(d: nat): char
    requires d < 16
  {
    if d < 10 then ('0' as int + d) as char else ('a' as int + d - 10) as char
  }

  /** A natural number in a base up to 16, without padding. */
  function Numeral(n: nat, base: nat): (s: string)
    requires 2 <= base <= 16
    ensures s != ""
    decreases n
  {
    if n < base then [DigitChar(n)] else Numeral(n / base, base) + [DigitChar(n % base)]
  }

  function DecimalText(n: nat): string { Numeral(n, 10) }

  lemma DigitCharInjective(c: nat, d: nat)
    requires c < 16 && d < 16 && DigitChar(c) == DigitChar(d)
    ensures c == d
  {}

  lemma DecimalLast(n: nat)
    ensures var s := DecimalText(n);
            && s != "" && s[|s| - 1] == DigitChar(n % 10)
            && (|s| == 1 <==> n < 10)
            && (n >= 10 ==> s[..|s| - 1] == DecimalText(n / 10))
  {}

  /** Different numbers have different decimal numerals. */
  lemma {:induction false} DecimalTextInjective(m: nat, n: nat)
    requires DecimalText(m) == DecimalText(n)
    ensures m == n
  {
    hide DigitChar, DecimalText;
    DecimalLast(m);
    DecimalLast(n);
    DigitCharInjective(m % 10, n % 10);
    if m >= 10 {
      DecimalTextInjective(m / 10, n / 10);
    }
  }
}
