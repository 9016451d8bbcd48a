/** The SQL comment stripper and the leading operation of a statement. */
module SqlScanner {
  import opened Json
  import opened Text

  // ---------------------------------------------------------------- what a statement is made of

  // Comments carry their whole text, delimiters included.
  datatype Token = Space(c: char) | Code(c: char) | LineComment(text: string) | BlockComment(text: string)

  function TextOf(t: Token): (s: string)
    ensures t.Space? || t.Code? ==> |s| == 1
  {
    match t
    case Space(c) => [c]
    case Code(c) => [c]
    case LineComment(text) => text
    case BlockComment(text) => text
  }

  function Visible(t: Token): string
  {
    match t
    case Space(_) => " "
    case Code(c) => [c]
    case _ => ""
  }

  predicate ClosesAt(s: string, i: nat) { i + 1 < |s| && s[i] == '*' && s[i + 1] == '/' }

  /** A block comment that ends with the first closing mark after its opening one. */
  predicate IsClosed(text: string)
  {
    |text| >= 4 && ClosesAt(text, |text| - 2) && forall i | 2 <= i < |text| - 2 :: !ClosesAt(text, i)
  }

  predicate OpensLineComment(s: string) { (|s| >= 2 && s[0] == '-' && s[1] == '-') || (s != "" && s[0] == '#') }

  predicate OpensBlockComment(s: string) { |s| >= 2 && s[0] == '/' && s[1] == '*' }

  /** The conditions on one token, given the text that follows it. */
  predicate TokenOk(t: Token, rest: string)
  {
    match t
    case Space(c) => IsAsciiSpace(c)
    case Code(c) => !IsAsciiSpace(c) && !OpensLineComment([c] + rest) && !OpensBlockComment([c] + rest)
    case LineComment(text) => OpensLineComment(text) && '\n' !in text && (rest == "" || rest[0] == '\n')
    case BlockComment(text) =>
      && OpensBlockComment(text)
      && (IsClosed(text) || (rest == "" && forall i | 2 <= i < |text| :: !ClosesAt(text, i)))
  }

  /** `tokens` cut the statement into whitespace, other characters outside comments, and whole comments. */
  predicate Tokenizes(tokens: seq<Token>, s: string)
    decreases |tokens|
  {
    if tokens == [] then s == ""
    else
      var text := TextOf(tokens[0]);
      text <= s && TokenOk(tokens[0], s[|text|..]) && Tokenizes(tokens[1..], s[|text|..])
  }

  function VisibleAll(tokens: seq<Token>): string
  {
    if tokens == [] then "" else Visible(tokens[0]) + VisibleAll(tokens[1..])
  }

  // ---------------------------------------------------------------- every statement has exactly one such cut

  function LineEnd(s: string, from: nat): (end: nat)
    requires from <= |s|
    ensures from <= end <= |s|
    ensures '\n' !in s[from..end] && (end < |s| ==> s[end] == '\n')
    decreases |s| - from
  {
    if from == |s| || s[from] == '\n' then from
    else
      var end := LineEnd(s, from + 1);
      assert s[from..end] == [s[from]] + s[from + 1..end];
      end
  }

  /** The index of the closing mark, or of the last character when there is none. */
  function BlockEnd(s: string, from: nat): (end: nat)
    requires from <= |s|
    ensures from <= end <= |s|
    ensures ClosesAt(s, end) || end + 1 >= |s|
    ensures forall i | from <= i < end :: !ClosesAt(s, i)
    decreases |s| - from
  {
    if from + 1 >= |s| || ClosesAt(s, from) then from else BlockEnd(s, from + 1)
  }

  function BlockLength(s: string): (length: nat)
    requires OpensBlockComment(s)
    ensures length <= |s|
  {
    var end := BlockEnd(s, 2);
    if end + 2 <= |s| then end + 2 else |s|
  }

  function FirstToken(s: string): (t: Token)
    requires s != ""
    ensures 0 < |TextOf(t)| <= |s|
  {
    if IsAsciiSpace(s[0]) then Space(s[0])
    else if OpensLineComment(s) then LineComment(s[..LineEnd(s, 0)])
    else if OpensBlockComment(s) then BlockComment(s[..BlockLength(s)])
    else Code(s[0])
  }

  lemma FirstTokenOk(s: string)
    requires s != ""
    ensures var t := FirstToken(s); TextOf(t) <= s && TokenOk(t, s[|TextOf(t)|..])
  {
    var t := FirstToken(s);
    if t.Code? {
      assert [s[0]] + s[1..] == s;
    } else if t.BlockComment? {
      assert forall i | 0 <= i < |t.text| - 1 :: ClosesAt(t.text, i) == ClosesAt(s, i);
    }
  }

  function Tokens(s: string): seq<Token>
    decreases |s|
  {
    if s == "" then []
    else
      var t := FirstToken(s);
      [t] + Tokens(s[|TextOf(t)|..])
  }

  lemma {:induction false} TokensTokenize(s: string)
    ensures Tokenizes(Tokens(s), s)
    decreases |s|
  {
    if s != "" {
      var t := FirstToken(s);
      var rest := s[|TextOf(t)|..];
      FirstTokenOk(s);
      TokensTokenize(rest);
      hide TokenOk, FirstToken;
      assert Tokens(s)[1..] == Tokens(rest);
    }
  }

  /** The characters outside comments, each whitespace character as a space. */
  function Strip(s: string): string { VisibleAll(Tokens(s)) }

  lemma LineCommentUnique(a: string, b: string, s: string)
    requires a <= s && b <= s && '\n' !in a && '\n' !in b
    requires s[|a|..] == "" || s[|a|..][0] == '\n'
    requires s[|b|..] == "" || s[|b|..][0] == '\n'
    ensures a == b
  {
    assert forall i | 0 <= i < |a| :: s[i] == a[i] && a[i] in a;
    assert forall i | 0 <= i < |b| :: s[i] == b[i] && b[i] in b;
    assert |a| < |s| ==> s[|a|] == '\n';
    assert |b| < |s| ==> s[|b|] == '\n';
  }

  lemma BlockCommentNotLonger(a: string, b: string, s: string)
    requires a <= s && b <= s
    requires TokenOk(BlockComment(a), s[|a|..]) && TokenOk(BlockComment(b), s[|b|..])
    ensures |b| <= |a|
  {
    assert forall i | 0 <= i && i + 1 < |a| && i + 1 < |b| :: ClosesAt(a, i) == ClosesAt(b, i);
    assert IsClosed(a) || |s[|a|..]| == 0;
  }

  lemma FirstTokenUnique(t: Token, u: Token, s: string)
    requires TextOf(t) <= s && TextOf(u) <= s
    requires TokenOk(t, s[|TextOf(t)|..]) && TokenOk(u, s[|TextOf(u)|..])
    ensures t == u
  {
    var a, b := TextOf(t), TextOf(u);
    assert s != "" && a[0] == s[0] && b[0] == s[0];
    assert t.Space? || t.Code? ==> [s[0]] + s[1..] == s;
    assert u.Space? || u.Code? ==> [s[0]] + s[1..] == s;
    if t.LineComment? && u.LineComment? {
      LineCommentUnique(a, b, s);
    } else if t.BlockComment? && u.BlockComment? {
      BlockCommentNotLonger(a, b, s);
      BlockCommentNotLonger(b, a, s);
      assert a == b;
    }
  }

  /**
   * Any cut of the statement that meets the conditions is the one the scanner finds, so it shows the same characters.
   */
  lemma {:induction false} TokensUnique(tokens: seq<Token>, s: string)
    requires Tokenizes(tokens, s)
    ensures tokens == Tokens(s)
    decreases |tokens|
  {
    if tokens != [] {
      var text := TextOf(tokens[0]);
      FirstTokenOk(s);
      FirstTokenUnique(tokens[0], FirstToken(s), s);
      TokensUnique(tokens[1..], s[|text|..]);
    }
  }

  // ---------------------------------------------------------------- the scanner

  method SkipLineComment(text: string, start: nat) returns (index: nat)
    requires start < |text|
    ensures index == start + LineEnd(text[start..], 0)
  {
    index := start;
    while index < |text| && text[index] != '\n'
      invariant start <= index <= |text|
      invariant LineEnd(text[start..], index - start) == LineEnd(text[start..], 0)
    {
      index := index + 1;
    }
  }

  // An unclosed comment runs to the end; the index then passes it by one.
  method SkipBlockComment(text: string, start: nat) returns (index: nat)
    requires start + 2 <= |text|
    ensures index == start + BlockEnd(text[start..], 2) + 2
  {
    index := start + 2;
    while index + 1 < |text| && !(text[index] == '*' && text[index + 1] == '/')
      invariant start + 2 <= index <= |text|
      invariant BlockEnd(text[start..], index - start) == BlockEnd(text[start..], 2)
    {
      index := index + 1;
    }
    index := index + 2;
  }

  function StripFrom(text: string, index: nat): string { if index <= |text| then Strip(text[index..]) else "" }

  lemma SkipToken(text: string, index: nat, t: Token)
    requires index < |text| && t == FirstToken(text[index..])
    ensures StripFrom(text, index) == Visible(t) + StripFrom(text, index + |TextOf(t)|)
  {
    assert text[index..][|TextOf(t)|..] == text[index + |TextOf(t)|..];
  }

  lemma AppendAssociates<T>(a: seq<T>, b: seq<T>, c: seq<T>)
    ensures a + (b + c) == (a + b) + c
  {}

  predicate LineCommentAt(text: string, index: nat)
    requires index < |text|
  {
    (text[index] == '-' && index + 1 < |text| && text[index + 1] == '-') || text[index] == '#'
  }

  predicate BlockCommentAt(text: string, index: nat)
    requires index < |text|
  {
    text[index] == '/' && index + 1 < |text| && text[index + 1] == '*'
  }

  lemma CommentOpenings(text: string, index: nat)
    requires index < |text|
    ensures OpensLineComment(text[index..]) <==> LineCommentAt(text, index)
    ensures OpensBlockComment(text[index..]) <==> BlockCommentAt(text, index)
  {
  }

  lemma Unprefixed(s: string)
    ensures "" + s == s
  {}

  lemma NothingAfter(text: string, index: nat)
    requires index >= |text|
    ensures StripFrom(text, index) == ""
  {}

  /** How much of the statement its leading block comment takes up. */
  lemma FirstIsBlockComment(s: string)
    requires s != "" && !IsAsciiSpace(s[0]) && !OpensLineComment(s) && OpensBlockComment(s)
    ensures FirstToken(s).BlockComment? && Visible(FirstToken(s)) == ""
    ensures |TextOf(FirstToken(s))| == if BlockEnd(s, 2) + 2 <= |s| then BlockEnd(s, 2) + 2 else |s|
  {
    hide BlockEnd, OpensLineComment, OpensBlockComment, IsAsciiSpace;
  }

  lemma BlockStep(text: string, index: nat)
    requires index < |text| && !IsAsciiSpace(text[index])
    requires !OpensLineComment(text[index..]) && OpensBlockComment(text[index..])
    ensures StripFrom(text, index) == StripFrom(text, index + BlockEnd(text[index..], 2) + 2)
  {
    hide *;
    var s := text[index..];
    FirstIsBlockComment(s);
    var n := |TextOf(FirstToken(s))|;
    SkipToken(text, index, FirstToken(s));
    Unprefixed(StripFrom(text, index + n));
    if BlockEnd(s, 2) + 2 > |s| {
      NothingAfter(text, index + n);
      NothingAfter(text, index + BlockEnd(s, 2) + 2);
    }
  }

  lemma LineStep(text: string, index: nat)
    requires index < |text| && !IsAsciiSpace(text[index])
    requires OpensLineComment(text[index..])
    ensures StripFrom(text, index) == StripFrom(text, index + LineEnd(text[index..], 0))
  {
    hide StripFrom, LineEnd;
    var s := text[index..];
    SkipToken(text, index, LineComment(s[..LineEnd(s, 0)]));
  }

  /** What each branch of the scanner owes: the characters it shows and where it goes on. */
  lemma ScanStep(text: string, index: nat)
    requires index < |text|
    ensures var rest := StripFrom(text, index);
            if IsAsciiSpace(text[index]) then rest == " " + StripFrom(text, index + 1)
            else if LineCommentAt(text, index) then rest == StripFrom(text, index + LineEnd(text[index..], 0))
            else if BlockCommentAt(text, index) then rest == StripFrom(text, index + BlockEnd(text[index..], 2) + 2)
            else rest == [text[index]] + StripFrom(text, index + 1)
  {
    hide StripFrom, LineEnd, BlockEnd, OpensLineComment, OpensBlockComment, LineCommentAt, BlockCommentAt, IsAsciiSpace;
    CommentOpenings(text, index);
    var c := text[index];
    if IsAsciiSpace(c) {
      SkipToken(text, index, Space(c));
    } else if LineCommentAt(text, index) {
      LineStep(text, index);
    } else if BlockCommentAt(text, index) {
      BlockStep(text, index);
    } else {
      SkipToken(text, index, Code(c));
    }
  }

  /** What has been output, and what the rest of the statement shows, is what the whole statement shows. */
  predicate Shows(text: string, index: nat, output: string) { output + StripFrom(text, index) == Strip(text) }

  lemma ShowsAtStart(text: string)
    ensures Shows(text, 0, "")
  {
    assert text[0..] == text;
    Unprefixed(Strip(text));
  }

  lemma ShowsMore(text: string, index: nat, output: string, piece: string, next: nat)
    requires Shows(text, index, output) && StripFrom(text, index) == piece + StripFrom(text, next)
    ensures Shows(text, next, output + piece)
  {
    hide StripFrom, Strip;
    AppendAssociates(output, piece, StripFrom(text, next));
  }

  lemma ShowsOn(text: string, index: nat, output: string, next: nat)
    requires Shows(text, index, output) && StripFrom(text, index) == StripFrom(text, next)
    ensures Shows(text, next, output)
  {
    hide StripFrom, Strip;
  }

  lemma ShowsAtEnd(text: string, index: nat, output: string)
    requires Shows(text, index, output) && index >= |text|
    ensures output == Strip(text)
  {
    hide StripFrom, Strip;
    NothingAfter(text, index);
    assert output + "" == output;
  }

  method StripSqlComments(text: string) returns (output: string)
    ensures output == Strip(text)
  {
    hide *;
    output := "";
    var index: nat := 0;
    ShowsAtStart(text);
    while index < |text|
      invariant Shows(text, index, output)
      decreases |text| - index
    {
      ScanStep(text, index);
      CommentWidths(text, index);
      ghost var start := index;
      var c := text[index];
      if IsAsciiSpace(c) {
        ShowsMore(text, start, output, " ", start + 1);
        output := output + " ";
        index := index + 1;
      } else if LineCommentAt(text, index) {
        index := SkipLineComment(text, index);
        ShowsOn(text, start, output, index);
      } else if BlockCommentAt(text, index) {
        index := SkipBlockComment(text, index);
        ShowsOn(text, start, output, index);
      } else {
        ShowsMore(text, start, output, [c], start + 1);
        output := output + [c];
        index := index + 1;
      }
    }
    ShowsAtEnd(text, index, output);
  }

  lemma CommentWidths(text: string, index: nat)
    requires index < |text|
    ensures LineCommentAt(text, index) ==> LineEnd(text[index..], 0) > 0
    ensures BlockCommentAt(text, index) ==> index + 2 <= |text|
  {}

  // ---------------------------------------------------------------- joining statements

  predicate JoinsAfter(t: Token, b: string)
  {
    match t
    case Space(_) => true
    case Code(c) => !OpensLineComment([c] + b) && !OpensBlockComment([c] + b)
    case LineComment(_) => b == "" || b[0] == '\n'
    case BlockComment(text) => IsClosed(text) || b == ""
  }

  /** No comment is still open at the end of `a`, and no comment opens across the seam between `a` and `b`. */
  predicate JoinsInCode(a: string, b: string)
  {
    var tokens := Tokens(a);
    tokens == [] || JoinsAfter(tokens[|tokens| - 1], b)
  }

  lemma TokenOkBeforeMore(t: Token, rest: string, b: string)
    requires TokenOk(t, rest) && rest != ""
    ensures TokenOk(t, rest + b)
  {
    if t.Code? {
      var c := t.c;
      assert forall i | 0 <= i < 2 :: ([c] + rest)[i] == ([c] + (rest + b))[i];
    }
  }

  lemma TokenizesCons(t: Token, tail: seq<Token>, text: string, rest: string)
    requires text == TextOf(t) && TokenOk(t, rest) && Tokenizes(tail, rest)
    ensures Tokenizes([t] + tail, text + rest)
  {
    assert ([t] + tail)[1..] == tail && (text + rest)[|text|..] == rest;
  }

  lemma TokenizesUncons(t: Token, tail: seq<Token>, s: string) returns (rest: string)
    requires Tokenizes([t] + tail, s)
    ensures s == TextOf(t) + rest && TokenOk(t, rest) && Tokenizes(tail, rest)
  {
    hide TokenOk;
    assert ([t] + tail)[0] == t && ([t] + tail)[1..] == tail;
    rest := s[|TextOf(t)|..];
  }

  lemma TokenizesNothing(tokens: seq<Token>)
    requires Tokenizes(tokens, "")
    ensures tokens == []
  {
    TokensUnique(tokens, "");
  }

  lemma JoinedTokenOk(t: Token, rest: string, b: string)
    requires TokenOk(t, rest) && (rest == "" ==> JoinsAfter(t, b))
    ensures TokenOk(t, rest + b)
  {
    if rest == "" {
      assert rest + b == b;
    } else {
      TokenOkBeforeMore(t, rest, b);
    }
  }

  lemma NothingJoins(tokens: seq<Token>, a: string, more: seq<Token>, b: string)
    requires tokens == [] && Tokenizes(tokens, a)
    ensures tokens + more == more && a + b == b
  {}

  lemma {:induction false} TokensJoin(tokens: seq<Token>, a: string, more: seq<Token>, b: string)
    requires Tokenizes(tokens, a) && Tokenizes(more, b)
    requires tokens == [] || JoinsAfter(tokens[|tokens| - 1], b)
    ensures Tokenizes(tokens + more, a + b)
    decreases |tokens|
  {
    hide *;
    if tokens == [] {
      NothingJoins(tokens, a, more, b);
    } else {
      var t, tail := tokens[0], tokens[1..];
      assert tokens == [t] + tail;
      var rest := TokenizesUncons(t, tail, a);
      if rest == "" { TokenizesNothing(tail); }
      TokensJoin(tail, rest, more, b);
      JoinedTokenOk(t, rest, b);
      TokenizesCons(t, tail + more, TextOf(t), rest + b);
      AppendAssociates([t], tail, more);
      AppendAssociates(TextOf(t), rest, b);
    }
  }

  lemma {:induction false} VisibleAllJoins(s: seq<Token>, t: seq<Token>)
    ensures VisibleAll(s + t) == VisibleAll(s) + VisibleAll(t)
  {
    if s == [] {
      assert s + t == t;
    } else {
      assert (s + t)[1..] == s[1..] + t;
      VisibleAllJoins(s[1..], t);
    }
  }

  lemma StripJoins(a: string, b: string)
    requires JoinsInCode(a, b)
    ensures Strip(a + b) == Strip(a) + Strip(b)
  {
    TokensTokenize(a);
    TokensTokenize(b);
    TokensJoin(Tokens(a), a, Tokens(b), b);
    TokensUnique(Tokens(a) + Tokens(b), a + b);
    VisibleAllJoins(Tokens(a), Tokens(b));
  }

  lemma StripCons(t: Token, rest: string)
    requires TokenOk(t, rest)
    ensures Strip(TextOf(t) + rest) == Visible(t) + Strip(rest)
  {
    hide TokenOk, Tokenizes;
    TokensTokenize(rest);
    TokenizesCons(t, Tokens(rest), TextOf(t), rest);
    TokensUnique([t] + Tokens(rest), TextOf(t) + rest);
  }

  predicate IsComment(comment: string, b: string)
  {
    || (TokenOk(LineComment(comment), b) && (b == "" || b[0] == '\n'))
    || (OpensBlockComment(comment) && IsClosed(comment))
  }

  /** A whole comment between two pieces disappears, and the pieces are stripped on their own. */
  lemma StripDropsComment(a: string, comment: string, b: string)
    requires IsComment(comment, b) && JoinsInCode(a, comment + b)
    ensures Strip(a + comment + b) == Strip(a) + Strip(b)
  {
    hide *;
    var t := TokenOfComment(comment, b);
    assert a + comment + b == a + (comment + b);
    StripJoins(a, comment + b);
    StripCons(t, b);
  }

  lemma TokenOfComment(comment: string, rest: string) returns (t: Token)
    requires IsComment(comment, rest)
    ensures TokenOk(t, rest) && TextOf(t) == comment && Visible(t) == ""
  {
    t := if OpensBlockComment(comment) && IsClosed(comment) then BlockComment(comment) else LineComment(comment);
  }

  // ---------------------------------------------------------------- stripping twice

  predicate OpensAt(s: string, i: nat)
    requires i <= |s|
  {
    OpensLineComment(s[i..]) || OpensBlockComment(s[i..])
  }

  predicate HasOpening(s: string) { exists i | 0 <= i <= |s| :: OpensAt(s, i) }

  predicate SpacesPlain(s: string) { forall i | 0 <= i < |s| :: IsAsciiSpace(s[i]) ==> s[i] == ' ' }

  lemma {:induction false} StripShape(tokens: seq<Token>, s: string)
    requires Tokenizes(tokens, s)
    ensures SpacesPlain(VisibleAll(tokens)) && |VisibleAll(tokens)| <= |s|
  {
    if tokens != [] { StripShape(tokens[1..], s[|TextOf(tokens[0])|..]); }
  }

  lemma OpeningsBehind(s: string, rest: string)
    requires s != "" && rest == s[1..] && !OpensAt(s, 0)
    ensures HasOpening(s) <==> HasOpening(rest)
  {
    assert forall i | 0 <= i <= |rest| :: rest[i..] == s[i + 1..];
    assert forall i | 0 <= i <= |rest| :: OpensAt(rest, i) <==> OpensAt(s, i + 1);
    if HasOpening(s) {
      var i :| 0 <= i <= |s| && OpensAt(s, i);
      assert OpensAt(rest, i - 1);
    }
  }

  lemma FirstTokenStrips(s: string)
    requires s != ""
    ensures var t := FirstToken(s);
            Strip(s) == Visible(t) + Strip(s[|TextOf(t)|..]) && TextOf(t) <= s && TokenOk(t, s[|TextOf(t)|..])
  {
    FirstTokenOk(s);
  }

  lemma StripShorter(s: string)
    ensures |Strip(s)| <= |s|
  {
    TokensTokenize(s);
    StripShape(Tokens(s), s);
  }

  lemma {:induction false} StripFixes(s: string)
    requires SpacesPlain(s)
    ensures Strip(s) == s <==> !HasOpening(s)
    decreases |s|
  {
    if s == "" {
      NothingFixed(s);
    } else {
      hide *;
      FirstTokenStrips(s);
      var t := FirstToken(s);
      var rest := s[|TextOf(t)|..];
      if t.Space? || t.Code? {
        PlainToken(t, s);
        OpeningsBehind(s, rest);
        StillPlain(s, rest);
        StripFixes(rest);
        assert Strip(s) == [s[0]] + Strip(rest) && s == [s[0]] + rest;
        assert Strip(s)[1..] == Strip(rest) && s[1..] == rest;
      } else {
        CommentOpens(t, s);
        CommentHides(t);
        StripShorter(rest);
        assert |Strip(s)| < |s|;
        OpensHere(s);
      }
    }
  }

  lemma NothingFixed(s: string)
    requires s == ""
    ensures Strip(s) == s && !HasOpening(s)
  {}

  lemma StillPlain(s: string, rest: string)
    requires SpacesPlain(s) && s != "" && rest == s[1..]
    ensures SpacesPlain(rest)
  {
    assert forall i | 0 <= i < |rest| :: rest[i] == s[i + 1];
  }

  /** A token that is no comment shows exactly the character it is. */
  lemma PlainToken(t: Token, s: string)
    requires (t.Space? || t.Code?) && SpacesPlain(s) && TextOf(t) <= s && TokenOk(t, s[|TextOf(t)|..])
    ensures |TextOf(t)| == 1 && s != "" && Visible(t) == [s[0]] && !OpensAt(s, 0)
  {
    assert s[0] == TextOf(t)[0] && s[0..] == s && [s[0]] + s[1..] == s;
  }

  lemma CommentHides(t: Token)
    requires t.LineComment? || t.BlockComment?
    ensures Visible(t) == ""
  {}

  lemma OpensHere(s: string)
    requires OpensLineComment(s) || OpensBlockComment(s)
    ensures HasOpening(s)
  {
    assert s[0..] == s && OpensAt(s, 0);
  }

  lemma CommentOpens(t: Token, s: string)
    requires TextOf(t) <= s && TokenOk(t, s[|TextOf(t)|..]) && (t.LineComment? || t.BlockComment?)
    ensures OpensLineComment(s) || OpensBlockComment(s)
    ensures |TextOf(t)| > 0
  {
    assert |TextOf(t)| >= 1 && TextOf(t)[..1] == s[..1];
    assert |TextOf(t)| >= 2 ==> TextOf(t)[..2] == s[..2];
  }

  predicate IsCommentToken(t: Token) { t.LineComment? || t.BlockComment? }

  predicate OpenTogether(c: char, d: char) { (c == '-' && d == '-') || (c == '/' && d == '*') }

  /** Two characters of code that would open a comment, with comments, at least one, and nothing else between them. */
  predicate MeetAt(tokens: seq<Token>, i: nat, j: nat)
    requires i < j < |tokens|
  {
    && i + 1 < j
    && tokens[i].Code? && tokens[j].Code? && OpenTogether(tokens[i].c, tokens[j].c)
    && forall k | i < k < j :: IsCommentToken(tokens[k])
  }

  predicate SomeMeet(tokens: seq<Token>) { exists i, j | 0 <= i < j < |tokens| :: MeetAt(tokens, i, j) }

  predicate FirstMeets(tokens: seq<Token>) { exists j | 0 < j < |tokens| :: MeetAt(tokens, 0, j) }

  lemma MeetBehind(tokens: seq<Token>)
    requires tokens != []
    ensures SomeMeet(tokens) <==> FirstMeets(tokens) || SomeMeet(tokens[1..])
  {
    var tail := tokens[1..];
    assert forall k | 0 < k < |tokens| :: tokens[k] == tail[k - 1];
    if SomeMeet(tail) {
      var i, j :| 0 <= i < j < |tail| && MeetAt(tail, i, j);
      assert MeetAt(tokens, i + 1, j + 1);
    }
    if SomeMeet(tokens) {
      var i, j :| 0 <= i < j < |tokens| && MeetAt(tokens, i, j);
      if i > 0 { assert MeetAt(tail, i - 1, j - 1); }
    }
  }

  /** The token that shows the first visible character: only comments stand before it. */
  lemma {:induction false} FirstVisible(tokens: seq<Token>) returns (j: nat)
    ensures j <= |tokens| && forall k | 0 <= k < j :: IsCommentToken(tokens[k])
    ensures j == |tokens| <==> VisibleAll(tokens) == ""
    ensures j < |tokens| ==> !IsCommentToken(tokens[j]) && VisibleAll(tokens)[0] == Visible(tokens[j])[0]
  {
    if tokens == [] || !IsCommentToken(tokens[0]) {
      j := 0;
    } else {
      var k := FirstVisible(tokens[1..]);
      j := k + 1;
    }
  }

  lemma OpensWith(c: char, shown: string)
    requires c != '#'
    ensures OpensAt([c] + shown, 0) <==> shown != "" && OpenTogether(c, shown[0])
  {
    assert ([c] + shown)[0..] == [c] + shown;
  }

  /** The character behind a code character does not open a comment with it. */
  lemma CodeStandsAlone(c: char, tail: seq<Token>, rest: string)
    requires Tokenizes(tail, rest) && TokenOk(Code(c), rest)
    ensures c != '#'
    ensures tail != [] && tail[0].Code? ==> !OpenTogether(c, tail[0].c)
  {
    if tail != [] && tail[0].Code? {
      assert ([c] + rest)[1] == rest[0] == tail[0].c;
    }
  }

  lemma CodeMeets(c: char, tail: seq<Token>, rest: string)
    requires Tokenizes(tail, rest) && TokenOk(Code(c), rest)
    ensures OpensAt([c] + VisibleAll(tail), 0) <==> FirstMeets([Code(c)] + tail)
  {
    CodeStandsAlone(c, tail, rest);
    hide OpensAt, Tokenizes, TokenOk, VisibleAll, IsCommentToken;
    var j := FirstVisible(tail);
    var shown, tokens := VisibleAll(tail), [Code(c)] + tail;
    OpensWith(c, shown);
    assert forall k | 0 < k < |tokens| :: tokens[k] == tail[k - 1];
    if 0 < j < |tail| && OpensAt([c] + shown, 0) {
      assert MeetAt(tokens, 0, j + 1);
    }
    if FirstMeets(tokens) {
      var k :| 0 < k < |tokens| && MeetAt(tokens, 0, k);
      assert !IsCommentToken(tail[k - 1]) && j <= k - 1;
      assert tokens[j + 1] == tail[j];
    }
  }

  /** What is left of a statement opens a comment exactly where removing comments made two characters meet. */
  lemma {:induction false} OpeningIffMeeting(tokens: seq<Token>, s: string)
    requires Tokenizes(tokens, s)
    ensures HasOpening(VisibleAll(tokens)) <==> SomeMeet(tokens)
  {
    if tokens != [] {
      var t, tail, rest := tokens[0], tokens[1..], s[|TextOf(tokens[0])|..];
      assert tokens == [t] + tail;
      OpeningIffMeeting(tail, rest);
      MeetBehind(tokens);
      if IsCommentToken(t) {
        assert VisibleAll(tokens) == VisibleAll(tail);
      } else {
        var shown := VisibleAll(tokens);
        assert shown == Visible(t) + VisibleAll(tail) && shown[1..] == VisibleAll(tail);
        if t.Code? {
          CodeMeets(t.c, tail, rest);
        } else {
          assert shown[0..] == shown && !OpensAt(shown, 0);
        }
        if !OpensAt(shown, 0) { OpeningsBehind(shown, VisibleAll(tail)); }
      }
    }
  }

  /** Stripping again changes nothing exactly when no two characters around a removed comment open one together. */
  lemma StripTwice(s: string)
    ensures Strip(Strip(s)) == Strip(s) <==> !SomeMeet(Tokens(s))
  {
    TokensTokenize(s);
    StripShape(Tokens(s), s);
    OpeningIffMeeting(Tokens(s), s);
    hide *;
    assert Strip(s) == VisibleAll(Tokens(s));
    StripFixes(Strip(s));
  }

  /** Two dashes on either side of a comment come together and open a comment of their own. */
  lemma StripIsNotIdempotent()
    ensures Strip("-/**/-x") == "--x" && Strip("--x") == ""
  {
    assert TokenOk(LineComment("--x"), "") && Strip("") == "";
    SplitDashes();
    hide *;
    StripCons(LineComment("--x"), "");
    assert "--x" + "" == "--x";
  }

  lemma SplitDashes()
    ensures Strip("-/**/-x") == "--x"
  {
    hide *;
    SplitTokens();
    DashX();
    StripCons(BlockComment("/**/"), "-x");
    StripCons(Code('-'), "/**/-x");
    assert "/**/" + "-x" == "/**/-x" && "-" + "/**/-x" == "-/**/-x" && "-" + ("" + "-x") == "--x";
  }

  lemma SplitTokens()
    ensures TokenOk(BlockComment("/**/"), "-x") && TokenOk(Code('-'), "/**/-x")
    ensures TextOf(BlockComment("/**/")) == "/**/" && TextOf(Code('-')) == "-"
    ensures Visible(BlockComment("/**/")) == "" && Visible(Code('-')) == "-"
  {}

  lemma DashX()
    ensures Strip("-x") == "-x"
  {
    hide *;
    DashXTokens();
    StripCons(Code('x'), "");
    assert "x" + "" == "x";
    StripCons(Code('-'), "x");
    assert "-" + "x" == "-x";
  }

  lemma DashXTokens()
    ensures TokenOk(Code('x'), "") && TokenOk(Code('-'), "x") && Strip("") == ""
    ensures TextOf(Code('x')) == "x" && TextOf(Code('-')) == "-"
    ensures Visible(Code('x')) == "x" && Visible(Code('-')) == "-"
  {}

  // ---------------------------------------------------------------- the leading operation

  function TrimLeft(s: string): (r: string)
    ensures |r| <= |s| && r == s[|s| - |r|..] && IsBlank(s[..|s| - |r|])
    ensures r != "" ==> !IsSpace(r[0])
  {
    if s != "" && IsSpace(s[0]) then
      var r := TrimLeft(s[1..]);
      OneMoreBlank(s, r);
      r
    else s
  }

  lemma OneMoreBlank(s: string, r: string)
    requires s != "" && IsSpace(s[0]) && |r| < |s|
    requires r == s[1..][|s| - 1 - |r|..] && IsBlank(s[1..][..|s| - 1 - |r|])
    ensures r == s[|s| - |r|..] && IsBlank(s[..|s| - |r|])
  {
    hide IsSpace;
    assert s[..|s| - |r|] == [s[0]] + s[1..][..|s| - 1 - |r|];
  }

  function TrimRight(s: string): (r: string)
    ensures r <= s && IsBlank(s[|r|..])
    ensures r != "" ==> !IsSpace(r[|r| - 1])
  {
    if s != "" && IsSpace(s[|s| - 1]) then
      var r := TrimRight(s[..|s| - 1]);
      assert s[|r|..] == s[..|s| - 1][|r|..] + [s[|s| - 1]];
      r
    else s
  }

  function Trim(s: string): string { TrimRight(TrimLeft(s)) }

  function TrimSemicolons(s: string): (r: string)
    ensures r <= s && forall i | |r| <= i < |s| :: s[i] == ';'
    ensures r != "" ==> r[|r| - 1] != ';'
  {
    if s != "" && s[|s| - 1] == ';' then TrimSemicolons(s[..|s| - 1]) else s
  }

  function FirstWord(s: string): (w: string)
    ensures w <= s && (forall c | c in w :: !IsSpace(c)) && (|w| < |s| ==> IsSpace(s[|w|]))
  {
    if s == "" || IsSpace(s[0]) then "" else [s[0]] + FirstWord(s[1..])
  }

  /** The leading operation; `upper` is Python's `str.upper`. */
  function SqlOperation(upper: string -> string, statement: string): Option<string>
  {
    var stripped := Trim(Strip(statement));
    if stripped == "" then None
    else if ';' in TrimSemicolons(stripped) then None
    else Some(upper(FirstWord(stripped)))
  }

  predicate OneStatement(s: string)
  {
    forall i, j | 0 <= i < j < |s| :: s[i] == ';' ==> s[j] == ';'
  }

  /** A `;`-free body and then nothing but `;`. */
  ghost predicate BodyThenSemicolons(s: string)
  {
    exists n | 0 <= n <= |s| :: ';' !in s[..n] && forall i | n <= i < |s| :: s[i] == ';'
  }

  lemma OneStatementIsBodyThenSemicolons(s: string)
    ensures ';' !in TrimSemicolons(s) <==> BodyThenSemicolons(s)
    ensures BodyThenSemicolons(s) <==> OneStatement(s)
  {
    var r := TrimSemicolons(s);
    assert r == s[..|r|];
    if ';' !in r {
      assert ';' !in s[..|r|];
      assert forall i | 0 <= i < |r| :: s[i] == r[i] && r[i] in r;
    } else {
      var i :| 0 <= i < |r| && r[i] == ';';
      assert s[i] == ';' && s[|r| - 1] != ';' && i < |r| - 1;
      assert forall n | i < n <= |s| :: s[..n][i] == ';';
    }
  }

  /** An operation is reported exactly for text with something in it and no second statement behind a separator. */
  lemma OperationIffOneStatement(upper: string -> string, statement: string)
    ensures var text := Trim(Strip(statement));
            SqlOperation(upper, statement).Some? <==> text != "" && BodyThenSemicolons(text)
  {
    OneStatementIsBodyThenSemicolons(Trim(Strip(statement)));
  }

  lemma FirstWordUnique(text: string, word: string)
    requires word <= text && (forall c | c in word :: !IsSpace(c)) && (|word| < |text| ==> IsSpace(text[|word|]))
    ensures FirstWord(text) == word
  {
    hide IsSpace, FirstWord;
    var w := FirstWord(text);
    assert forall i | 0 <= i < |word| :: text[i] == word[i] && word[i] in word;
    assert forall i | 0 <= i < |w| :: text[i] == w[i] && w[i] in w;
    assert |w| == |word|;
    assert w == text[..|w|] && word == text[..|w|];
  }

  lemma BlankFrom(s: string, k: nat)
    requires k <= |s| && IsBlank(s[k..])
    ensures forall j | k <= j < |s| :: IsSpace(s[j])
  {
    hide IsSpace;
    assert forall j | k <= j < |s| :: s[k..][j - k] == s[j];
  }

  lemma TrimmedBegins(left: string, word: string, rest: string)
    requires IsBlank(left) && word != "" && forall c | c in word :: !IsSpace(c)
    ensures var text := Trim(left + word + rest);
            word <= text && text <= word + rest
  {
    hide IsSpace, IsBlank, TrimLeft, TrimRight;
    var s := word + rest;
    assert left + word + rest == left + s && s[0] == word[0] && word[0] in word;
    TrimLeftUnique(left, s);
    var text := TrimRight(s);
    BlankFrom(s, |text|);
    assert forall i | 0 <= i < |word| :: s[i] == word[i] && word[i] in word;
    assert s[|word| - 1] == word[|word| - 1];
    assert |word| <= |text|;
    assert word == s[..|word|] && text == s[..|text|];
  }

  /** The operation reported is the first word of what is visible of the statement, in upper case. */
  lemma OperationIsFirstWord(upper: string -> string, statement: string, left: string, word: string, rest: string)
    requires Strip(statement) == left + word + rest && IsBlank(left)
    requires word != "" && (forall c | c in word :: !IsSpace(c)) && (rest == "" || IsSpace(rest[0]))
    ensures SqlOperation(upper, statement).Some? ==> SqlOperation(upper, statement) == Some(upper(word))
  {
    hide Strip, IsSpace, Trim, FirstWord;
    var text := Trim(Strip(statement));
    TrimmedBegins(left, word, rest);
    assert |word| < |text| ==> text[|word|] == (word + rest)[|word|] == rest[0];
    FirstWordUnique(text, word);
  }

  lemma WordAtTheStart(s: string) returns (left: string, word: string, rest: string)
    requires Trim(s) != ""
    ensures s == left + word + rest && IsBlank(left)
    ensures word != "" && (forall c | c in word :: !IsSpace(c)) && (rest == "" || IsSpace(rest[0]))
  {
    hide IsSpace, IsBlank, TrimLeft, TrimRight;
    NothingTrims();
    var trimmed := TrimLeft(s);
    left := s[..|s| - |trimmed|];
    Cut(s, |s| - |trimmed|);
    word, rest := WordAndRest(trimmed);
    assert left + (word + rest) == left + word + rest;
  }

  lemma WordAndRest(s: string) returns (word: string, rest: string)
    requires s != "" && !IsSpace(s[0])
    ensures s == word + rest
    ensures word != "" && (forall c | c in word :: !IsSpace(c)) && (rest == "" || IsSpace(rest[0]))
  {
    hide IsSpace;
    word := FirstWord(s);
    rest := s[|word|..];
    Cut(s, |word|);
  }

  lemma NothingTrims()
    ensures TrimRight("") == ""
  {}

  /** A statement with an operation does begin with a word. */
  lemma OperationHasAWord(upper: string -> string, statement: string) returns (left: string, word: string, rest: string)
    requires SqlOperation(upper, statement).Some?
    ensures Strip(statement) == left + word + rest && IsBlank(left)
    ensures word != "" && (forall c | c in word :: !IsSpace(c)) && (rest == "" || IsSpace(rest[0]))
    ensures SqlOperation(upper, statement) == Some(upper(word))
  {
    hide Strip, IsSpace, IsBlank, Trim, FirstWord;
    left, word, rest := WordAtTheStart(Strip(statement));
    OperationIsFirstWord(upper, statement, left, word, rest);
  }

  /** Behind a separator of an accepted statement, outside comments, there is only whitespace and more separators. */
  lemma NothingHidesBehindASeparator(upper: string -> string, statement: string, i: nat, j: nat)
    requires SqlOperation(upper, statement).Some?
    requires i < j < |Strip(statement)| && Strip(statement)[i] == ';'
    ensures Strip(statement)[j] == ';' || IsSpace(Strip(statement)[j])
  {
    hide Strip, Trim, IsSpace, BodyThenSemicolons;
    var s := Strip(statement);
    var l, r := TrimParts(s);
    var text := Trim(s);
    OneStatementIsBodyThenSemicolons(text);
    if j >= |l| + |text| {
      assert s[j] == r[j - |l| - |text|];
    } else {
      assert i >= |l| by {
        if i < |l| { assert l[i] == ';' && IsSpace(l[i]); SemicolonIsNoSpace(); }
      }
      assert text[i - |l|] == ';' && text[j - |l|] == s[j];
    }
  }

  lemma SemicolonIsNoSpace()
    ensures !IsSpace(';')
  {}

  lemma TrimParts(s: string) returns (left: string, right: string)
    ensures s == left + Trim(s) + right && IsBlank(left) && IsBlank(right)
  {
    hide TrimLeft, TrimRight, IsSpace, IsBlank;
    var rest := TrimLeft(s);
    left, right := s[..|s| - |rest|], rest[|TrimRight(rest)|..];
    Cut(s, |s| - |rest|);
    Cut(rest, |TrimRight(rest)|);
    assert left + (TrimRight(rest) + right) == left + TrimRight(rest) + right;
  }

  lemma Cut(s: string, k: nat)
    requires k <= |s|
    ensures s == s[..k] + s[k..]
  {}

  /** Trimming is pinned down by what it leaves: no whitespace at either end, and only whitespace taken off. */
  lemma TrimUnique(s: string, left: string, r: string, right: string)
    requires s == left + r + right && IsBlank(left) && IsBlank(right)
    requires r == "" || (!IsSpace(r[0]) && !IsSpace(r[|r| - 1]))
    ensures Trim(s) == r
  {
    if r == "" {
      assert s == (left + right) + "";
      TrimLeftUnique(left + right, "");
    } else {
      assert s == left + (r + right);
      TrimLeftUnique(left, r + right);
      TrimRightUnique(r, right);
    }
  }

  lemma {:induction false} TrimLeftUnique(left: string, r: string)
    requires IsBlank(left) && (r == "" || !IsSpace(r[0]))
    ensures TrimLeft(left + r) == r
  {
    if left == "" {
      assert left + r == r;
    } else {
      assert (left + r)[1..] == left[1..] + r;
      TrimLeftUnique(left[1..], r);
    }
  }

  lemma {:induction false} TrimRightUnique(r: string, right: string)
    requires IsBlank(right) && (r == "" || !IsSpace(r[|r| - 1]))
    ensures TrimRight(r + right) == r
  {
    if right == "" {
      assert r + right == r;
    } else {
      assert (r + right)[..|r + right| - 1] == r + right[..|right| - 1];
      TrimRightUnique(r, right[..|right| - 1]);
    }
  }
}
