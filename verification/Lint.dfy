/** The linter's claims that a rule is unreachable, against the evaluator that would have to reach it. */
module Lint {
  import opened Json
  import opened Policies
  import Decimals
  import Glob
  import GlobInclusion

  datatype Severity = Error | Warning

  datatype Finding = Finding(severity: Severity, code: string, ruleIndex: Option<nat>)

  // ---------------------------------------------------------------- when one tool pattern covers another

  /** Does `broad` match every name that `specific` matches? Only trailing wildcards are approximated. */
  predicate GlobCovers(broad: string, specific: string)
  {
    if broad == "*" || broad == specific then true
    else if '*' in broad then broad[|broad| - 1] == '*' && broad[..|broad| - 1] <= specific
    else Glob.Match(broad, specific) && '*' !in specific
  }

  ghost predicate Covers(broad: string, specific: string)
  {
    forall name | Glob.Match(specific, name) :: Glob.Match(broad, name)
  }

  lemma CoversIsInclusion(broad: string, specific: string)
    ensures Covers(broad, specific) <==> GlobInclusion.Includes(Glob.Atoms(broad), Glob.Atoms(specific))
  {
    forall name
      ensures Glob.Match(broad, name) <==> Glob.MatchAtoms(Glob.Atoms(broad), name)
      ensures Glob.Match(specific, name) <==> Glob.MatchAtoms(Glob.Atoms(specific), name)
    {
      Glob.MatchIsAtomwise(broad, name);
      Glob.MatchIsAtomwise(specific, name);
    }
  }

  /**
   * When the approximation can be trusted, read off the two patterns: they are the same, the specific one has a class
   * without members, or, without stars, the broad one holds at every place what the specific one does. With a final
   * star, the atoms before it are the first atoms of the specific one, or hold what the specific one begins with; when
   * there are more stars, following the specific pattern through the broad one decides.
   */
  ghost predicate CoverHolds(broad: string, specific: string)
  {
    var b, s := Glob.Atoms(broad), Glob.Atoms(specific);
    || broad == specific || GlobInclusion.Dead(s)
    || if '*' !in broad then |b| == |s| && forall i | 0 <= i < |s| :: GlobInclusion.HoldsAll(b[i], s[i])
       else
         var p := Glob.Atoms(broad[..|broad| - 1]);
         || p <= s
         || if GlobInclusion.StarFree(p) then GlobInclusion.PrefixHolds(p, s) else GlobInclusion.Follows(b, {0}, s)
  }

  lemma {:induction false} NoStarAtoms(pattern: string)
    requires '*' !in pattern
    ensures GlobInclusion.StarFree(Glob.Atoms(pattern))
  {
    hide Glob.Atoms, Glob.ClassEnd, GlobInclusion.StarFree;
    if pattern == "" {
      Glob.StarAlone();
      NoAtoms();
    } else {
      assert pattern[0] in pattern;
      if pattern[0] == '[' && Glob.ClassEnd(pattern) < |pattern| {
        var end := Glob.ClassEnd(pattern);
        Glob.ClassHead(pattern);
        NoStarAtoms(pattern[end + 1..]);
        StarFreeCons(Glob.Class(pattern[1..end]), Glob.Atoms(pattern[end + 1..]));
      } else {
        Glob.PlainHead(pattern);
        NoStarAtoms(pattern[1..]);
        StarFreeCons(Glob.PlainAtom(pattern[0]), Glob.Atoms(pattern[1..]));
      }
    }
  }

  lemma NoAtoms()
    ensures GlobInclusion.StarFree([])
  {}

  lemma StarFreeCons(a: Glob.Atom, atoms: seq<Glob.Atom>)
    requires !a.Star? && GlobInclusion.StarFree(atoms)
    ensures GlobInclusion.StarFree([a] + atoms)
  {}

  /** A reported cover is a real one exactly then. */
  lemma GlobCoversIsSound(broad: string, specific: string)
    requires GlobCovers(broad, specific)
    ensures Covers(broad, specific) <==> CoverHolds(broad, specific)
  {
    hide GlobInclusion.Includes, GlobInclusion.Dead, GlobInclusion.PrefixHolds, GlobInclusion.Follows, Glob.Atoms,
        Glob.Match, Covers;
    var b, s := Glob.Atoms(broad), Glob.Atoms(specific);
    CoversIsInclusion(broad, specific);
    if broad == specific {
      SameIncludes(b);
    } else if '*' !in broad {
      NoStarAtoms(broad);
      NoStarAtoms(specific);
      GlobInclusion.StarFreeIncludes(b, s);
    } else {
      var prefix := broad[..|broad| - 1];
      assert broad == prefix + "*";
      Glob.FinalStar(prefix);
      FinalStarCovers(Glob.Atoms(prefix), s);
    }
  }

  lemma SameIncludes(b: seq<Glob.Atom>)
    ensures GlobInclusion.Includes(b, b)
  {}

  lemma FinalStarCovers(p: seq<Glob.Atom>, s: seq<Glob.Atom>)
    ensures GlobInclusion.Includes(p + [Glob.Star], s) <==>
            || GlobInclusion.Dead(s) || p <= s
            || if GlobInclusion.StarFree(p) then GlobInclusion.PrefixHolds(p, s)
               else GlobInclusion.Follows(p + [Glob.Star], {0}, s)
  {
    hide GlobInclusion.PrefixHolds, GlobInclusion.Follows;
    GlobInclusion.FollowsDecidesInclusion(p + [Glob.Star], s);
    if GlobInclusion.StarFree(p) { GlobInclusion.OneStarIncludes(p, s); }
    if p <= s { GlobInclusion.SharedPrefixIncludes(p, s); }
    if GlobInclusion.Dead(s) {
      forall v ensures !Glob.MatchAtoms(s, v) { GlobInclusion.DeadMatchesNothing(s, v); }
    }
  }

  /** Some character class opens in the pattern and is closed. */
  predicate HasClass(pattern: string)
  {
    exists i | 0 <= i < |Glob.Atoms(pattern)| :: Glob.Atoms(pattern)[i].Class?
  }

  /** In particular when the broad pattern has no bracket, and either it has a star or the specific one no class. */
  lemma BracketFreeCovers(broad: string, specific: string)
    requires GlobCovers(broad, specific) && Glob.BracketFree(broad)
    requires '*' in broad || !HasClass(specific)
    ensures CoverHolds(broad, specific)
  {
    if broad != specific {
      if '*' in broad {
        var prefix := broad[..|broad| - 1];
        assert specific == prefix + specific[|prefix|..];
        Glob.BracketFreeAtoms(prefix, specific[|prefix|..]);
      } else {
        PlacesHold(broad, specific);
      }
    }
  }

  lemma {:induction false} PlacesHold(broad: string, specific: string)
    requires Glob.BracketFree(broad) && '*' !in broad && '*' !in specific
    requires Glob.Match(broad, specific) && !HasClass(specific)
    ensures var b, s := Glob.Atoms(broad), Glob.Atoms(specific);
            |b| == |s| && forall i | 0 <= i < |s| :: GlobInclusion.HoldsAll(b[i], s[i])
  {
    if broad != "" {
      assert broad[0] in broad && specific[0] in specific;
      var s := Glob.Atoms(specific);
      assert !s[0].Class?;
      assert s[1..] == Glob.Atoms(specific[1..]) && forall i | 0 <= i < |s[1..]| :: s[1..][i] == s[i + 1];
      PlacesHold(broad[1..], specific[1..]);
      assert GlobInclusion.HoldsAll(Glob.Atoms(broad)[0], s[0]);
    }
  }

  // ---------------------------------------------------------------- covers that are missed

  lemma {:induction false} PlainAtoms(pattern: string)
    requires Glob.BracketFree(pattern)
    ensures |Glob.Atoms(pattern)| == |pattern|
    ensures forall i | 0 <= i < |pattern| :: Glob.Atoms(pattern)[i] == Glob.PlainAtom(pattern[i])
  {
    if pattern != "" {
      assert pattern[0] in pattern;
      PlainAtoms(pattern[1..]);
      assert Glob.Atoms(pattern) == [Glob.PlainAtom(pattern[0])] + Glob.Atoms(pattern[1..]);
    }
  }

  lemma PlainIsAlive(pattern: string)
    requires Glob.BracketFree(pattern)
    ensures !GlobInclusion.Dead(Glob.Atoms(pattern))
  {
    PlainAtoms(pattern);
  }

  /** A pattern with a star matches names of different lengths. */
  lemma StarStretches(s: seq<Glob.Atom>, i: nat) returns (v: string, w: string)
    requires !GlobInclusion.Dead(s) && i < |s| && s[i].Star?
    ensures Glob.MatchAtoms(s, v) && Glob.MatchAtoms(s, w) && |w| == |v| + 1
  {
    hide Glob.MatchAtoms, GlobInclusion.Dead;
    v := GlobInclusion.Shortest(s);
    assert s == s[..i] + s[i..];
    var k := Glob.MatchSplits(s[..i], s[i..], v);
    GlobInclusion.StarAbsorbs(s[i..], "a", v[k..]);
    w := v[..k] + ("a" + v[k..]);
    Glob.MatchJoins(s[..i], s[i..], v[..k], "a" + v[k..]);
  }

  lemma PlaceIsText(c: char, d: char)
    requires GlobInclusion.HoldsAll(Glob.PlainAtom(c), Glob.PlainAtom(d)) && c != '*' && d != '*'
    ensures Glob.Holds(Glob.PlainAtom(c), d)
  {
    if c != '?' {
      var other := if c == 'a' then 'b' else 'a';
      assert d == '?' ==> Glob.Holds(Glob.PlainAtom(d), other);
      assert Glob.Holds(Glob.PlainAtom(d), d);
    }
  }

  lemma FixedCoverIsText(broad: string, specific: string)
    requires Glob.BracketFree(broad) && Glob.BracketFree(specific) && '*' !in broad && Covers(broad, specific)
    ensures '*' !in specific && Glob.Match(broad, specific)
  {
    hide Covers, Glob.Match, GlobInclusion.HoldsAll, Glob.Holds, GlobInclusion.Dead, Glob.PlainAtom;
    var b, s := Glob.Atoms(broad), Glob.Atoms(specific);
    CoversIsInclusion(broad, specific);
    NoStarAtoms(broad);
    PlainIsAlive(specific);
    PlainAtoms(broad);
    PlainAtoms(specific);
    if '*' in specific {
      var i :| 0 <= i < |specific| && specific[i] == '*';
      StarIsStar();
      var v, w := StarStretches(s, i);
      GlobInclusion.StarFreeMatch(b, v);
      GlobInclusion.StarFreeMatch(b, w);
    } else {
      NoStarAtoms(specific);
      GlobInclusion.StarFreeIncludes(b, s);
      forall i | 0 <= i < |b| ensures Glob.Holds(b[i], specific[i]) {
        assert broad[i] in broad && specific[i] in specific;
        PlaceIsText(broad[i], specific[i]);
      }
      GlobInclusion.StarFreeMatch(b, specific);
      Glob.MatchIsAtomwise(broad, specific);
    }
  }

  lemma StarIsStar()
    ensures Glob.PlainAtom('*').Star?
  {}

  /** A literal that holds all another atom does is that very character. */
  lemma LiteralIsText(c: char, d: char)
    requires GlobInclusion.HoldsAll(Glob.PlainAtom(c), Glob.PlainAtom(d)) && c != '*' && c != '?' && d != '*'
    ensures c == d
  {
    PlaceIsText(c, d);
  }

  lemma LiteralHoldsNotAll(c: char)
    requires c != '*' && c != '?'
    ensures !GlobInclusion.HoldsAll(Glob.PlainAtom(c), Glob.Any)
  {
    var other := if c == 'a' then 'b' else 'a';
    assert Glob.Holds(Glob.Any, other);
  }

  lemma {:induction false} PrefixIsText(w: string, specific: string)
    requires Glob.BracketFree(w) && '*' !in w && '?' !in w && Glob.BracketFree(specific)
    requires GlobInclusion.PrefixHolds(Glob.Atoms(w), Glob.Atoms(specific))
    ensures w <= specific
  {
    if w != "" {
      hide GlobInclusion.HoldsAll, Glob.PlainAtom, GlobInclusion.MinWidth;
      assert w[0] in w;
      PlainAtoms(w);
      LiteralHoldsNotAll(w[0]);
      if specific != "" {
        assert specific[0] in specific;
        PlainAtoms(specific);
        PlainTail(w);
        PlainTail(specific);
        StarOnly(specific[0]);
        if specific[0] != '*' {
          LiteralIsText(w[0], specific[0]);
          PrefixIsText(w[1..], specific[1..]);
        }
      }
    }
  }

  lemma StarOnly(c: char)
    ensures Glob.PlainAtom(c).Star? <==> c == '*'
  {}

  lemma PlainTail(pattern: string)
    requires Glob.BracketFree(pattern) && pattern != ""
    ensures Glob.Atoms(pattern)[1..] == Glob.Atoms(pattern[1..])
  {
    assert pattern[0] in pattern;
  }

  /**
   * Without brackets no cover is missed either, as long as the broad pattern is of fixed length or plain text before a
   * final star: then one tool pattern covers another exactly when the check says so.
   */
  lemma GlobCoversIsComplete(broad: string, specific: string)
    requires Glob.BracketFree(broad) && Glob.BracketFree(specific)
    requires '*' !in broad
             || (broad[|broad| - 1] == '*' && '*' !in broad[..|broad| - 1] && '?' !in broad[..|broad| - 1])
    ensures GlobCovers(broad, specific) <==> Covers(broad, specific)
  {
    hide Covers, Glob.Match, CoverHolds;
    if GlobCovers(broad, specific) {
      BracketFreeHasNoClass(specific);
      BracketFreeCovers(broad, specific);
      GlobCoversIsSound(broad, specific);
    }
    if Covers(broad, specific) {
      if '*' !in broad {
        FixedCoverIsText(broad, specific);
      } else {
        assert broad == broad[..|broad| - 1] + "*";
        StarCoverIsText(broad[..|broad| - 1], specific);
      }
    }
  }

  lemma StarCoverIsText(w: string, specific: string)
    requires Glob.BracketFree(w) && '*' !in w && '?' !in w && Glob.BracketFree(specific) && Covers(w + "*", specific)
    ensures w <= specific
  {
    hide Covers, GlobInclusion.Dead, GlobInclusion.PrefixHolds, Glob.Atoms;
    CoversIsInclusion(w + "*", specific);
    Glob.FinalStar(w);
    NoStarAtoms(w);
    PlainIsAlive(specific);
    GlobInclusion.OneStarIncludes(Glob.Atoms(w), Glob.Atoms(specific));
    PrefixIsText(w, specific);
  }

  /**
   * Brackets on either side defeat it: `???` covers `[a]` by its text, a class covers `?`, and an unclosed bracket in
   * front of the star is closed in the specific pattern. None of this holds of the names.
   */
  lemma BracketsDefeatCovers()
    ensures GlobCovers("???", "[a]") && Glob.Match("[a]", "a") && !Glob.Match("???", "a")
    ensures GlobCovers("[?]", "?") && Glob.Match("?", "a") && !Glob.Match("[?]", "a")
    ensures GlobCovers("[a*", "[a]") && Glob.Match("[a]", "a") && !Glob.Match("[a*", "a")
  {
    hide Glob.Match, GlobCovers;
    ClassOfOne('a', "a");
    ClassOfOne('?', "?");
    ClassOfOne('?', "a");
    Glob.MatchOne('?', "a");
    AnyCoversTheText();
    UnclosedCoversTheText();
  }

  lemma AnyCoversTheText()
    ensures GlobCovers("???", "[a]") && !Glob.Match("???", "a")
    ensures Glob.Match("[?]", "?") ==> GlobCovers("[?]", "?")
  {
    assert "???"[1..] == "??" && "??"[1..] == "?" && "?"[1..] == "" && "[a]"[1..] == "a]" && "a]"[1..] == "]";
    assert Glob.Match("??", "a]") && !Glob.Match("??", "");
  }

  lemma UnclosedCoversTheText()
    ensures GlobCovers("[a*", "[a]") && !Glob.Match("[a*", "a")
  {
    assert "[a*"[..2] == "[a" && "[a]"[..2] == "[a" && "[a" <= "[a]";
    assert Glob.FindClose("[a*", 1) == Glob.FindClose("[a*", 2) == Glob.FindClose("[a*", 3) == 3;
  }

  lemma ClassOfOne(c: char, name: string)
    requires c != '!' && c != ']' && |name| == 1
    ensures Glob.Match(['[', c, ']'], name) <==> name[0] == c
  {
    var pattern := ['[', c, ']'];
    assert Glob.FindClose(pattern, 1) == Glob.FindClose(pattern, 2) == 2;
    assert pattern[1..2] == [c] && pattern[3..] == "" && name[1..] == "";
    assert [c][1..] == "" && !Glob.InItems("", name[0]) && Glob.InItems([c], name[0]) == (name[0] == c);
    assert Glob.InClass([c], name[0]) == (name[0] == c);
  }

  // ---------------------------------------------------------------- what each check reports

  predicate Equivalent(first: Rule, second: Rule)
  {
    first.tool == second.tool && first.arguments == second.arguments
  }

  predicate Shadows(earlier: Rule, approval: Rule)
  {
    && approval.decision == RequireApproval
    && earlier.decision == Allow && earlier.arguments == map[] && GlobCovers(earlier.tool, approval.tool)
  }

  datatype Check = Equivalents | ApprovalsShadowed
  {
    predicate Hides(earlier: Rule, later: Rule)
    {
      if this == Equivalents then Equivalent(earlier, later) else Shadows(earlier, later)
    }

    function Report(index: nat): Finding
    {
      Finding(Error, if this == Equivalents then "shadowed_equivalent" else "approval_shadowed_by_allow", Some(index))
    }

    predicate Flags(rules: seq<Rule>, later: nat)
      requires later < |rules|
    {
      exists earlier | 0 <= earlier < later :: Hides(rules[earlier], rules[later])
    }

    /** One finding for each flagged rule below `upto`, in rule order. */
    function Findings(rules: seq<Rule>, upto: nat): seq<Finding>
      requires upto <= |rules|
    {
      if upto == 0 then []
      else Findings(rules, upto - 1) + (if Flags(rules, upto - 1) then [Report(upto - 1)] else [])
    }

    lemma {:induction false} ReportedIffFlagged(rules: seq<Rule>, upto: nat, index: nat)
      requires upto <= |rules|
      ensures Report(index) in Findings(rules, upto) <==> index < upto && Flags(rules, index)
    {
      if upto > 0 { ReportedIffFlagged(rules, upto - 1, index); }
    }
  }

  class FindingList {
    var items: seq<Finding>

    constructor ()
      ensures items == []
    {
      items := [];
    }

    method Append(f: Finding)
      modifies this
      ensures items == old(items) + [f]
    {
      items := items + [f];
    }
  }

  lemma FlaggedBy(check: Check, rules: seq<Rule>, later: nat, earlier: nat)
    requires earlier < later < |rules| && check.Hides(rules[earlier], rules[later])
    ensures check.Findings(rules, later + 1) == check.Findings(rules, later) + [check.Report(later)]
  {}

  lemma NotFlagged(check: Check, rules: seq<Rule>, later: nat)
    requires later < |rules| && forall k | 0 <= k < later :: !check.Hides(rules[k], rules[later])
    ensures check.Findings(rules, later + 1) == check.Findings(rules, later)
  {
    assert check.Findings(rules, later) + [] == check.Findings(rules, later);
  }

  lemma NothingFound(check: Check, rules: seq<Rule>)
    ensures check.Findings(rules, 0) == [] && (rules != [] ==> check.Findings(rules, 1) == [])
  {
    if rules != [] { NotFlagged(check, rules, 0); }
  }

  lemma Reassociate(a: seq<Finding>, b: seq<Finding>, c: seq<Finding>)
    ensures a + b + c == a + (b + c)
  {}

  method CheckShadowedEquivalents(rules: seq<Rule>, findings: FindingList)
    modifies findings
    ensures findings.items == old(findings.items) + Equivalents.Findings(rules, |rules|)
  {
    hide Check.Findings, Check.Flags;
    NothingFound(Equivalents, rules);
    if rules == [] { return; }
    ghost var before := findings.items;
    for later := 1 to |rules|
      invariant findings.items == before + Equivalents.Findings(rules, later)
    {
      ghost var soFar := Equivalents.Findings(rules, later);
      ghost var found := false;
      for earlier := 0 to later
        invariant !found && findings.items == before + soFar
        invariant forall k | 0 <= k < earlier :: !Equivalents.Hides(rules[k], rules[later])
      {
        if Equivalent(rules[earlier], rules[later]) {
          FlaggedBy(Equivalents, rules, later, earlier);
          Reassociate(before, soFar, [Equivalents.Report(later)]);
          findings.Append(Finding(Error, "shadowed_equivalent", Some(later)));
          found := true;
          break;
        }
      }
      if !found { NotFlagged(Equivalents, rules, later); }
    }
  }

  method CheckApprovalShadowing(rules: seq<Rule>, findings: FindingList)
    modifies findings
    ensures findings.items == old(findings.items) + ApprovalsShadowed.Findings(rules, |rules|)
  {
    hide Check.Findings, Check.Flags, GlobCovers;
    NothingFound(ApprovalsShadowed, rules);
    if rules == [] { return; }
    ghost var before := findings.items;
    for later := 1 to |rules|
      invariant findings.items == before + ApprovalsShadowed.Findings(rules, later)
    {
      ghost var soFar := ApprovalsShadowed.Findings(rules, later);
      var approval := rules[later];
      if approval.decision != RequireApproval {
        NotFlagged(ApprovalsShadowed, rules, later);
        continue;
      }
      ghost var found := false;
      for earlier := 0 to later
        invariant !found && findings.items == before + soFar
        invariant forall k | 0 <= k < earlier :: !ApprovalsShadowed.Hides(rules[k], rules[later])
      {
        var allowRule := rules[earlier];
        if allowRule.decision == Allow && allowRule.arguments == map[] && GlobCovers(allowRule.tool, approval.tool) {
          FlaggedBy(ApprovalsShadowed, rules, later, earlier);
          Reassociate(before, soFar, [ApprovalsShadowed.Report(later)]);
          findings.Append(Finding(Error, "approval_shadowed_by_allow", Some(later)));
          found := true;
          break;
        }
      }
      if !found { NotFlagged(ApprovalsShadowed, rules, later); }
    }
  }

  // ---------------------------------------------------------------- a reported rule is never the one selected

  lemma HiddenNeverSelected(policy: Policy, call: ToolCall, usage: Usage, earlier: nat, later: nat)
    requires earlier < later < |policy.rules|
    requires RuleMatches(policy.typed, policy.rules[later], call) ==>
             RuleMatches(policy.typed, policy.rules[earlier], call)
    ensures Evaluate(policy, call, usage).ruleIndex != Some(later)
  {
    FirstMatchWins(policy, call, 0, later);
  }

  /** Whatever the budget, the call and the usage so far, a rule reported as a repetition is never selected. */
  lemma EquivalentsUnreachable(policy: Policy, call: ToolCall, usage: Usage, index: nat)
    requires Equivalents.Report(index) in Equivalents.Findings(policy.rules, |policy.rules|)
    ensures Evaluate(policy, call, usage).ruleIndex != Some(index)
  {
    Equivalents.ReportedIffFlagged(policy.rules, |policy.rules|, index);
    var earlier :| 0 <= earlier < index && Equivalents.Hides(policy.rules[earlier], policy.rules[index]);
    HiddenNeverSelected(policy, call, usage, earlier, index);
  }

  /** Some earlier rule that hides the approval rule really matches every tool the approval rule matches. */
  ghost predicate TrulyShadowed(rules: seq<Rule>, index: nat)
    requires index < |rules|
  {
    exists earlier | 0 <= earlier < index ::
      Shadows(rules[earlier], rules[index]) && CoverHolds(rules[earlier].tool, rules[index].tool)
  }

  /** Nor is an approval rule for which the report's reason holds, whatever brackets the other patterns have. */
  lemma ShadowedApprovalsUnreachable(policy: Policy, call: ToolCall, usage: Usage, index: nat)
    requires index < |policy.rules| && TrulyShadowed(policy.rules, index)
    ensures ApprovalsShadowed.Report(index) in ApprovalsShadowed.Findings(policy.rules, |policy.rules|)
    ensures Evaluate(policy, call, usage).ruleIndex != Some(index)
  {
    hide CoverHolds, Covers, GlobCovers;
    var earlier :| 0 <= earlier < index
                   && Shadows(policy.rules[earlier], policy.rules[index])
                   && CoverHolds(policy.rules[earlier].tool, policy.rules[index].tool);
    assert ApprovalsShadowed.Hides(policy.rules[earlier], policy.rules[index]);
    ApprovalsShadowed.ReportedIffFlagged(policy.rules, |policy.rules|, index);
    GlobCoversIsSound(policy.rules[earlier].tool, policy.rules[index].tool);
    CoveredToolMatches(policy.rules[earlier], policy.rules[index], call);
    HiddenNeverSelected(policy, call, usage, earlier, index);
  }

  lemma CoveredToolMatches(earlier: Rule, later: Rule, call: ToolCall)
    requires Covers(earlier.tool, later.tool)
    ensures RuleToolMatches(later, call) ==> RuleToolMatches(earlier, call)
  {}

  predicate BracketFreeTools(rules: seq<Rule>) { forall i | 0 <= i < |rules| :: Glob.BracketFree(rules[i].tool) }

  lemma {:induction false} BracketFreeHasNoClass(pattern: string)
    requires Glob.BracketFree(pattern)
    ensures !HasClass(pattern)
  {
    if pattern != "" {
      assert pattern[0] in pattern;
      BracketFreeHasNoClass(pattern[1..]);
      var atoms := Glob.Atoms(pattern);
      assert atoms[1..] == Glob.Atoms(pattern[1..]);
      assert forall i | 0 < i < |atoms| :: atoms[i] == atoms[1..][i - 1];
    }
  }

  /** In a policy whose tool patterns hold no brackets no approval rule reported as shadowed is ever selected. */
  lemma ReportedApprovalsUnreachable(policy: Policy, call: ToolCall, usage: Usage, index: nat)
    requires BracketFreeTools(policy.rules)
    requires ApprovalsShadowed.Report(index) in ApprovalsShadowed.Findings(policy.rules, |policy.rules|)
    ensures Evaluate(policy, call, usage).ruleIndex != Some(index)
  {
    hide CoverHolds, GlobCovers, HasClass, Glob.BracketFree, Evaluate;
    ApprovalsShadowed.ReportedIffFlagged(policy.rules, |policy.rules|, index);
    var earlier :| 0 <= earlier < index && ApprovalsShadowed.Hides(policy.rules[earlier], policy.rules[index]);
    BracketFreeHasNoClass(policy.rules[index].tool);
    BracketFreeCovers(policy.rules[earlier].tool, policy.rules[index].tool);
    assert TrulyShadowed(policy.rules, index);
    ShadowedApprovalsUnreachable(policy, call, usage, index);
  }

  /** The report on a single pair is right exactly when its reason holds: else some call reaches the reported rule. */
  lemma PairReportIsRight(typed: (Value, Value) -> bool, allow: Rule, approval: Rule)
    requires Shadows(allow, approval) && approval.arguments == map[]
    ensures var policy := Policy(Block, Budget(None, None, None, None), [allow, approval], typed);
            CoverHolds(allow.tool, approval.tool) <==>
            forall call, usage :: Evaluate(policy, call, usage).ruleIndex != Some(1)
  {
    hide CoverHolds, GlobCovers, Glob.Match;
    var policy := Policy(Block, Budget(None, None, None, None), [allow, approval], typed);
    GlobCoversIsSound(allow.tool, approval.tool);
    if CoverHolds(allow.tool, approval.tool) {
      forall call, usage ensures Evaluate(policy, call, usage).ruleIndex != Some(1) {
        HiddenNeverSelected(policy, call, usage, 0, 1);
      }
    } else {
      var name :| Glob.Match(approval.tool, name) && !Glob.Match(allow.tool, name);
      var call := ToolCall(name, map[], Decimals.ZERO);
      FirstMatchWins(policy, call, 0, 1);
      assert Evaluate(policy, call, NO_USAGE).ruleIndex == Some(1);
    }
  }

  /** With a bracket in a pattern the report can be wrong: this approval rule is reported, and selected. */
  lemma ReportedYetSelected(typed: (Value, Value) -> bool)
    ensures var rules := [Rule("???", Allow, "", map[]), Rule("[a]", RequireApproval, "", map[])];
            && ApprovalsShadowed.Report(1) in ApprovalsShadowed.Findings(rules, |rules|)
            && Evaluate(Policy(Block, Budget(None, None, None, None), rules, typed),
                        ToolCall("a", map[], Decimals.ZERO), NO_USAGE).ruleIndex == Some(1)
  {
    hide Glob.Match, GlobCovers, Evaluate, RuleDecision, Check.Findings;
    var rules := [Rule("???", Allow, "", map[]), Rule("[a]", RequireApproval, "", map[])];
    var policy := Policy(Block, Budget(None, None, None, None), rules, typed);
    var call := ToolCall("a", map[], Decimals.ZERO);
    BracketsDefeatCovers();
    assert ApprovalsShadowed.Hides(rules[0], rules[1]);
    ApprovalsShadowed.ReportedIffFlagged(rules, |rules|, 1);
    FirstMatchWins(policy, call, 0, 1);
    Unbudgeted(policy, call, NO_USAGE);
  }

  lemma Unbudgeted(policy: Policy, call: ToolCall, usage: Usage)
    requires policy.budget == Budget(None, None, None, None)
    ensures Evaluate(policy, call, usage) == RuleDecision(policy, call, 0)
  {
    hide RuleDecision;
  }
}
