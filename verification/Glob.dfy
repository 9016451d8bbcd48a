/** Case-sensitive shell globs, matched against a whole string. */
module Glob {

  /** Index of the `]` that closes the class opened at index 0, or the length of the pattern when it is never closed. */
  function ClassEnd(pattern: string): (end: nat)
    requires pattern != "" && pattern[0] == '['
    ensures 1 <= end <= |pattern|
  {
    var j := if 1 < |pattern| && pattern[1] == '!' then 2 else 1;
    var k := if j < |pattern| && pattern[j] == ']' then j + 1 else j;
    FindClose(pattern, k)
  }

  function FindClose(pattern: string, from: nat): (end: nat)
    requires from <= |pattern|
    ensures from <= end <= |pattern|
    decreases |pattern| - from
  {
    if from == |pattern| || pattern[from] == ']' then from else FindClose(pattern, from + 1)
  }

  predicate InItems(items: string, c: char)
  {
    if items == "" then false
    else if |items| >= 3 && items[1] == '-' then items[0] <= c <= items[2] || InItems(items[3..], c)
    else items[0] == c || InItems(items[1..], c)
  }

  predicate InClass(content: string, c: char)
  {
    if content != "" && content[0] == '!' then !InItems(content[1..], c) else InItems(content, c)
  }

  predicate Match(pattern: string, value: string)
    decreases |pattern|, |value|
  {
    if pattern == "" then value == ""
    else if pattern[0] == '*' then
      Match(pattern[1..], value) || (value != "" && Match(pattern, value[1..]))
    else if value == "" then false
    else if pattern[0] == '?' then Match(pattern[1..], value[1..])
    else if pattern[0] == '[' && ClassEnd(pattern) < |pattern| then
      var end := ClassEnd(pattern);
      InClass(pattern[1..end], value[0]) && Match(pattern[end + 1..], value[1..])
    else value[0] == pattern[0] && Match(pattern[1..], value[1..])
  }

  /** The patterns whose meaning is a plain concatenation of the meanings of their characters. */
  predicate BracketFree(pattern: string) { '[' !in pattern }

  lemma {:induction false} StarMatchesAll(value: string)
    ensures Match("*", value)
  {
    if value != "" { StarMatchesAll(value[1..]); }
  }

  /** What each character means on its own; the lemmas on atoms carry this to every pattern. */
  lemma MatchOne(c: char, value: string)
    ensures Match([c], value) <==> c == '*' || (|value| == 1 && (c == '?' || value[0] == c))
  {
    if c == '*' {
      StarMatchesAll(value);
    } else if value != "" {
      assert [c][1..] == "";
      assert c == '[' ==> ClassEnd([c]) == |[c]|;
    }
  }

  // ---------------------------------------------------------------- patterns as sequences of atoms

  datatype Atom = Star | Any | Lit(c: char) | Class(content: string)

  function Atoms(pattern: string): (atoms: seq<Atom>)
    ensures pattern != "" ==> atoms != []
  {
    if pattern == "" then []
    else if pattern[0] == '*' then [Star] + Atoms(pattern[1..])
    else if pattern[0] == '?' then [Any] + Atoms(pattern[1..])
    else if pattern[0] == '[' && ClassEnd(pattern) < |pattern| then
      [Class(pattern[1..ClassEnd(pattern)])] + Atoms(pattern[ClassEnd(pattern) + 1..])
    else [Lit(pattern[0])] + Atoms(pattern[1..])
  }

  /** The characters an atom stands for; a star stands for no single one. */
  predicate Holds(a: Atom, c: char)
  {
    match a
    case Star => false
    case Any => true
    case Lit(d) => c == d
    case Class(content) => InClass(content, c)
  }

  predicate MatchAtoms(atoms: seq<Atom>, value: string)
    decreases |atoms|, |value|
  {
    if atoms == [] then value == ""
    else if atoms[0].Star? then MatchAtoms(atoms[1..], value) || (value != "" && MatchAtoms(atoms, value[1..]))
    else value != "" && Holds(atoms[0], value[0]) && MatchAtoms(atoms[1..], value[1..])
  }

  /** Matching a pattern is matching its atoms, brackets or not. */
  lemma {:induction false} MatchIsAtomwise(pattern: string, value: string)
    ensures Match(pattern, value) <==> MatchAtoms(Atoms(pattern), value)
    decreases |pattern|, |value|
  {
    if pattern != "" {
      var tail := if pattern[0] == '[' && ClassEnd(pattern) < |pattern| then pattern[ClassEnd(pattern) + 1..]
          else pattern[1..];
      assert Atoms(pattern)[1..] == Atoms(tail);
      if pattern[0] == '*' { MatchIsAtomwise(tail, value); }
      if value != "" {
        MatchIsAtomwise(if pattern[0] == '*' then pattern else tail, value[1..]);
      }
    }
  }

  /** What a concatenation matches splits into what its parts match ... */
  lemma {:induction false} MatchSplits(a: seq<Atom>, b: seq<Atom>, value: string) returns (i: nat)
    requires MatchAtoms(a + b, value)
    ensures i <= |value| && MatchAtoms(a, value[..i]) && MatchAtoms(b, value[i..])
    decreases |a|, |value|
  {
    if a == [] {
      assert a + b == b;
      i := 0;
    } else {
      assert (a + b)[1..] == a[1..] + b;
      if a[0].Star? && MatchAtoms(a[1..] + b, value) {
        i := MatchSplits(a[1..], b, value);
      } else {
        var k := MatchSplits(if a[0].Star? then a else a[1..], b, value[1..]);
        i := k + 1;
        assert value[..i][1..] == value[1..][..k];
      }
    }
  }

  /** ... and conversely. */
  lemma {:induction false} MatchJoins(a: seq<Atom>, b: seq<Atom>, x: string, y: string)
    requires MatchAtoms(a, x) && MatchAtoms(b, y)
    ensures MatchAtoms(a + b, x + y)
    decreases |a|, |x|
  {
    if a == [] {
      assert a + b == b && x + y == y;
    } else {
      assert (a + b)[1..] == a[1..] + b;
      if x != "" { assert (x + y)[1..] == x[1..] + y; }
      if a[0].Star? && MatchAtoms(a[1..], x) {
        MatchJoins(a[1..], b, x, y);
      } else {
        MatchJoins(if a[0].Star? then a else a[1..], b, x[1..], y);
      }
    }
  }

  /** Without a bracket a pattern's atoms do not depend on what stands behind it. */
  lemma {:induction false} BracketFreeAtoms(a: string, b: string)
    requires BracketFree(a)
    ensures Atoms(a + b) == Atoms(a) + Atoms(b)
  {
    if a == "" {
      assert a + b == b;
    } else {
      assert (a + b)[1..] == a[1..] + b && a[0] in a;
      BracketFreeAtoms(a[1..], b);
    }
  }

  lemma {:induction false} CloseBeforeStar(pattern: string, from: nat)
    requires from <= |pattern|
    ensures FindClose(pattern + "*", from)
            == if FindClose(pattern, from) == |pattern| then |pattern| + 1 else FindClose(pattern, from)
    decreases |pattern| - from
  {
    if from < |pattern| {
      assert (pattern + "*")[from] == pattern[from];
      CloseBeforeStar(pattern, from + 1);
    } else {
      assert (pattern + "*")[from] == '*';
    }
  }

  function PlainAtom(c: char): Atom { if c == '*' then Star else if c == '?' then Any else Lit(c) }

  lemma PlainHead(pattern: string)
    requires pattern != "" && (pattern[0] == '[' ==> ClassEnd(pattern) >= |pattern|)
    ensures Atoms(pattern) == [PlainAtom(pattern[0])] + Atoms(pattern[1..])
  {
    hide ClassEnd, InClass;
  }

  lemma ClassHead(pattern: string)
    requires pattern != "" && pattern[0] == '[' && ClassEnd(pattern) < |pattern|
    ensures Atoms(pattern) == [Class(pattern[1..ClassEnd(pattern)])] + Atoms(pattern[ClassEnd(pattern) + 1..])
  {
    hide ClassEnd, InClass;
  }

  lemma StarAlone()
    ensures Atoms("*") == [Star] && Atoms("") == []
  {
    assert "*"[1..] == "";
  }

  /** A final star closes no bracket: it is a star whatever stands before it. */
  lemma {:induction false} FinalStar(pattern: string)
    ensures Atoms(pattern + "*") == Atoms(pattern) + [Star]
  {
    hide Atoms, ClassEnd, InClass;
    if pattern == "" {
      assert "" + "*" == "*";
      StarAlone();
    } else {
      if pattern[0] == '[' { FinalStarOfClass(pattern); }
      if pattern[0] == '[' && ClassEnd(pattern) < |pattern| {
        FinalStarBehindClass(pattern, ClassEnd(pattern));
        FinalStar(pattern[ClassEnd(pattern) + 1..]);
      } else {
        assert (pattern + "*")[1..] == pattern[1..] + "*";
        PlainHead(pattern);
        PlainHead(pattern + "*");
        FinalStar(pattern[1..]);
      }
    }
  }

  lemma FinalStarBehindClass(pattern: string, end: nat)
    requires pattern != "" && pattern[0] == '[' && end == ClassEnd(pattern) < |pattern|
    requires ClassEnd(pattern + "*") == end
    ensures Atoms(pattern) == [Class(pattern[1..end])] + Atoms(pattern[end + 1..])
    ensures Atoms(pattern + "*") == [Class(pattern[1..end])] + Atoms(pattern[end + 1..] + "*")
  {
    hide Atoms, ClassEnd, InClass;
    SlicesBefore(pattern, "*", end);
    ClassHead(pattern);
    ClassHead(pattern + "*");
  }

  lemma SlicesBefore(text: string, rest: string, end: nat)
    requires 1 <= end < |text|
    ensures (text + rest)[1..end] == text[1..end] && (text + rest)[end + 1..] == text[end + 1..] + rest
  {}

  lemma FinalStarOfClass(pattern: string)
    requires pattern != "" && pattern[0] == '['
    ensures ClassEnd(pattern + "*") == if ClassEnd(pattern) == |pattern| then |pattern| + 1 else ClassEnd(pattern)
  {
    var longer := pattern + "*";
    var j := if 1 < |pattern| && pattern[1] == '!' then 2 else 1;
    assert forall i | 0 <= i < |pattern| :: longer[i] == pattern[i];
    assert longer[|pattern|] == '*';
    CloseBeforeStar(pattern, j);
    if j < |pattern| { CloseBeforeStar(pattern, j + 1); }
  }

  // ---------------------------------------------------------------- what stands between brackets

  datatype Item = Single(c: char) | Range(lo: char, hi: char)

  function ItemText(item: Item): string
  {
    match item
    case Single(c) => [c]
    case Range(lo, hi) => [lo, '-', hi]
  }

  function ItemsText(items: seq<Item>): string
  {
    if items == [] then "" else ItemText(items[0]) + ItemsText(items[1..])
  }

  predicate InItem(item: Item, c: char)
  {
    match item
    case Single(d) => c == d
    case Range(lo, hi) => lo <= c <= hi
  }

  /** A `-` stands first, last, or between the ends of a range. */
  predicate DashesInPlace(items: seq<Item>)
  {
    forall i | 0 < i < |items| :: ItemText(items[i])[0] != '-' || (i == |items| - 1 && items[i] == Single('-'))
  }

  lemma TextBegins(items: seq<Item>)
    ensures items != [] ==> ItemsText(items) != "" && ItemsText(items)[0] == ItemText(items[0])[0]
    ensures items == [Single('-')] ==> ItemsText(items) == "-"
  {
    if items == [Single('-')] { assert items[1..] == []; }
  }

  /** Written down one after the other, single characters and ranges stand for all their characters together. */
  lemma {:induction false} ItemsMean(items: seq<Item>, c: char)
    requires DashesInPlace(items)
    ensures InItems(ItemsText(items), c) <==> exists i | 0 <= i < |items| :: InItem(items[i], c)
  {
    if items != [] {
      hide InItem;
      var rest := items[1..];
      assert forall i | 0 <= i < |rest| :: rest[i] == items[i + 1];
      ItemsMean(rest, c);
      TextBegins(rest);
      FirstItem(items[0], ItemsText(rest), c);
    }
  }

  lemma FirstItem(item: Item, rest: string, c: char)
    requires item.Single? ==> rest == "" || rest[0] != '-' || rest == "-"
    ensures InItems(ItemText(item) + rest, c) <==> InItem(item, c) || InItems(rest, c)
  {
    var text := ItemText(item) + rest;
    if item.Single? {
      assert text[1..] == rest;
    } else {
      assert text[3..] == rest;
    }
  }

  /** The content of a class, behind the mark that turns it round. */
  function Body(content: string): string { if content != "" && content[0] == '!' then content[1..] else content }

  lemma {:induction false} FindCloseIs(pattern: string, from: nat, end: nat)
    requires from <= end <= |pattern| && (end < |pattern| ==> pattern[end] == ']')
    requires forall i | from <= i < end :: pattern[i] != ']'
    ensures FindClose(pattern, from) == end
    decreases end - from
  {
    if from < end { FindCloseIs(pattern, from + 1, end); }
  }

  /** In the content of a class a `]` stands at most first. */
  predicate NoneCloses(content: string)
  {
    forall i | 0 < i < |Body(content)| :: Body(content)[i] != ']'
  }

  lemma BodyStands(pattern: string, content: string, j: nat)
    requires "[" + content <= pattern && j == (if content != "" && content[0] == '!' then 2 else 1)
    ensures |content| + 1 == |Body(content)| + j
    ensures forall k | j <= k < |content| + 1 :: pattern[k] == Body(content)[k - j]
  {
    assert forall k | 1 <= k < |content| + 1 :: pattern[k] == content[k - 1];
  }

  lemma ClassEndAt(pattern: string, content: string)
    requires "[" + content <= pattern && NoneCloses(content)
    requires |pattern| > |content| + 1 ==> Body(content) != "" && pattern[|content| + 1] == ']'
    ensures ClassEnd(pattern) == 1 + |content|
  {
    hide FindClose, Body;
    assert content != "" ==> pattern[1] == content[0];
    var j := if content != "" && content[0] == '!' then 2 else 1;
    BodyStands(pattern, content, j);
    if Body(content) != "" {
      FindCloseIs(pattern, if pattern[j] == ']' then j + 1 else j, 1 + |content|);
    } else {
      FindCloseIs(pattern, |pattern|, |pattern|);
    }
  }

  /** Brackets around a content, in which a `]` stands at most first, are one atom: the class of that content. */
  lemma BracketsAreAClass(content: string, rest: string)
    requires Body(content) != "" && NoneCloses(content)
    ensures Atoms("[" + content + "]" + rest) == [Class(content)] + Atoms(rest)
  {
    hide ClassEnd, Atoms;
    var pattern := "[" + content + "]" + rest;
    assert pattern == "[" + content + ("]" + rest) && pattern[|content| + 1] == ']';
    ClassEndAt(pattern, content);
    ClassHead(pattern);
    assert pattern[1..1 + |content|] == content && pattern[2 + |content|..] == rest;
  }

  /** A class stands for the characters of its items, or for all others when it is turned round. */
  lemma ClassHolds(items: seq<Item>, turned: bool, c: char)
    requires DashesInPlace(items) && items != []
    requires !turned ==> ItemText(items[0])[0] != '!'
    ensures var content := (if turned then "!" else "") + ItemsText(items);
            Holds(Class(content), c) <==> (turned <==> !exists i | 0 <= i < |items| :: InItem(items[i], c))
  {
    hide InItems, InItem, ItemText;
    ItemsMean(items, c);
    TextBegins(items);
    var content := (if turned then "!" else "") + ItemsText(items);
    if turned { assert content[1..] == ItemsText(items); } else { assert content == ItemsText(items); }
  }

  /** A bracket that nothing closes stands for itself. */
  lemma OpenBracketIsLiteral(rest: string)
    requires NoneCloses(rest)
    ensures Atoms("[" + rest) == [Lit('[')] + Atoms(rest)
  {
    hide ClassEnd, Atoms;
    var pattern := "[" + rest;
    ClassEndAt(pattern, rest);
    PlainHead(pattern);
    assert pattern[1..] == rest;
  }
}
