/** When one glob matches every name another one matches, decided on their atoms. */
module GlobInclusion {
  import opened Glob

  ghost predicate Includes(b: seq<Atom>, s: seq<Atom>) { forall v | MatchAtoms(s, v) :: MatchAtoms(b, v) }

  ghost predicate HoldsAll(a: Atom, b: Atom) { forall c | Holds(b, c) :: Holds(a, c) }

  predicate StarFree(atoms: seq<Atom>) { forall i | 0 <= i < |atoms| :: !atoms[i].Star? }

  // ---------------------------------------------------------------- patterns that match nothing

  /** Nothing but ranges whose ends are the wrong way round. */
  predicate OnlyReversed(items: string)
  {
    items == "" || (|items| >= 3 && items[1] == '-' && items[0] > items[2] && OnlyReversed(items[3..]))
  }

  /** A class without a member: of reversed ranges only, or excluding every character. */
  ghost predicate IsEmpty(a: Atom)
  {
    && a.Class?
    && if a.content != "" && a.content[0] == '!' then forall c: char :: InItems(a.content[1..], c)
       else OnlyReversed(a.content)
  }

  lemma {:induction false} OnlyReversedHoldsNone(items: string) returns (c: char)
    ensures OnlyReversed(items) ==> forall d :: !InItems(items, d)
    ensures !OnlyReversed(items) ==> InItems(items, c)
  {
    c := 'a';
    if items != "" {
      c := items[0];
      if |items| >= 3 && items[1] == '-' && items[0] > items[2] {
        c := OnlyReversedHoldsNone(items[3..]);
      }
    }
  }

  lemma EmptyHoldsNothing(a: Atom) returns (c: char)
    requires !a.Star?
    ensures IsEmpty(a) ==> forall d :: !Holds(a, d)
    ensures !IsEmpty(a) ==> Holds(a, c)
  {
    match a
    case Any => c := 'a';
    case Lit(d) => c := d;
    case Class(content) =>
      if content != "" && content[0] == '!' {
        c := 'a';
        if !IsEmpty(a) { c :| !InItems(content[1..], c); }
      } else {
        c := OnlyReversedHoldsNone(content);
      }
  }

  ghost predicate Dead(s: seq<Atom>) { exists i | 0 <= i < |s| :: IsEmpty(s[i]) }

  function MinWidth(s: seq<Atom>): nat
  {
    if s == [] then 0 else (if s[0].Star? then 0 else 1) + MinWidth(s[1..])
  }

  lemma {:induction false} AtLeastMinWidth(s: seq<Atom>, v: string)
    requires MatchAtoms(s, v)
    ensures |v| >= MinWidth(s)
    decreases |s|, |v|
  {
    if s != [] {
      if s[0].Star? && MatchAtoms(s[1..], v) {
        AtLeastMinWidth(s[1..], v);
      } else {
        AtLeastMinWidth(if s[0].Star? then s else s[1..], v[1..]);
      }
    }
  }

  lemma {:induction false} DeadMatchesNothing(s: seq<Atom>, v: string)
    requires Dead(s)
    ensures !MatchAtoms(s, v)
    decreases |s|, |v|
  {
    var i :| 0 <= i < |s| && IsEmpty(s[i]);
    if s[0].Star? {
      assert s[1..][i - 1] == s[i];
      DeadMatchesNothing(s[1..], v);
      if v != "" { DeadMatchesNothing(s, v[1..]); }
    } else if i == 0 {
      var _ := EmptyHoldsNothing(s[0]);
    } else if v != "" {
      assert s[1..][i - 1] == s[i];
      DeadMatchesNothing(s[1..], v[1..]);
    }
  }

  /** Every other pattern matches a name of its least width. */
  lemma {:induction false} Shortest(s: seq<Atom>) returns (v: string)
    requires !Dead(s)
    ensures MatchAtoms(s, v) && |v| == MinWidth(s)
  {
    if s == [] {
      v := "";
    } else {
      assert forall i | 0 <= i < |s[1..]| :: s[1..][i] == s[i + 1];
      var w := Shortest(s[1..]);
      if s[0].Star? {
        v := w;
      } else {
        var c := EmptyHoldsNothing(s[0]);
        v := [c] + w;
        assert v[1..] == w;
      }
    }
  }

  // ---------------------------------------------------------------- patterns without a star

  predicate Starts(p: seq<Atom>, v: string)
  {
    |v| >= |p| && forall i | 0 <= i < |p| :: Holds(p[i], v[i])
  }

  lemma {:induction false} StarFreeMatch(a: seq<Atom>, v: string)
    requires StarFree(a)
    ensures MatchAtoms(a, v) <==> |v| == |a| && Starts(a, v)
  {
    if a != [] {
      assert forall i | 0 <= i < |a[1..]| :: a[1..][i] == a[i + 1];
      if v != "" {
        assert forall i | 0 <= i < |v[1..]| :: v[1..][i] == v[i + 1];
        StarFreeMatch(a[1..], v[1..]);
        assert Starts(a, v) <==> Holds(a[0], v[0]) && Starts(a[1..], v[1..]);
      }
    }
  }

  /**
   * Two star-free patterns: the one includes the other exactly when it does so place by place, or the other is dead.
   */
  lemma StarFreeIncludes(b: seq<Atom>, s: seq<Atom>)
    requires StarFree(b) && StarFree(s)
    ensures Includes(b, s) <==> Dead(s) || (|b| == |s| && forall i | 0 <= i < |s| :: HoldsAll(b[i], s[i]))
  {
    if Dead(s) {
      forall v ensures !MatchAtoms(s, v) { DeadMatchesNothing(s, v); }
    } else {
      if |b| == |s| && forall i | 0 <= i < |s| :: HoldsAll(b[i], s[i]) {
        forall v | MatchAtoms(s, v) ensures MatchAtoms(b, v) {
          StarFreeMatch(s, v);
          StarFreeMatch(b, v);
        }
      }
      if Includes(b, s) { PlaceByPlace(b, s); }
    }
  }

  lemma PlaceByPlace(b: seq<Atom>, s: seq<Atom>)
    requires StarFree(b) && StarFree(s) && !Dead(s) && Includes(b, s)
    ensures |b| == |s| && forall i | 0 <= i < |s| :: HoldsAll(b[i], s[i])
  {
    var w := Shortest(s);
    StarFreeMatch(s, w);
    StarFreeMatch(b, w);
    forall i, c | 0 <= i < |s| && Holds(s[i], c) ensures Holds(b[i], c) {
      var v := w[i := c];
      StarFreeMatch(s, v);
      StarFreeMatch(b, v);
      assert MatchAtoms(s, v) && v[i] == c;
    }
  }

  // ---------------------------------------------------------------- a star-free prefix and anything behind it

  lemma {:induction false} StarAbsorbs(s: seq<Atom>, x: string, v: string)
    requires s != [] && s[0].Star? && MatchAtoms(s, v)
    ensures MatchAtoms(s, x + v)
  {
    if x == "" {
      assert x + v == v;
    } else {
      StarAbsorbs(s, x[1..], v);
      assert (x + v)[1..] == x[1..] + v;
    }
  }

  lemma {:induction false} OneStarMatch(p: seq<Atom>, v: string)
    requires StarFree(p)
    ensures MatchAtoms(p + [Star], v) <==> Starts(p, v)
  {
    if p == [] {
      assert p + [Star] == [Star];
      AnythingMatchesStar(v);
    } else {
      assert (p + [Star])[1..] == p[1..] + [Star];
      assert forall i | 0 <= i < |p[1..]| :: p[1..][i] == p[i + 1];
      if v != "" {
        OneStarMatch(p[1..], v[1..]);
        assert forall i | 0 <= i < |v[1..]| :: v[1..][i] == v[i + 1];
        assert Starts(p, v) <==> Holds(p[0], v[0]) && Starts(p[1..], v[1..]);
      }
    }
  }

  lemma {:induction false} AnythingMatchesStar(v: string)
    ensures MatchAtoms([Star], v)
  {
    if v != "" { AnythingMatchesStar(v[1..]); }
  }

  /** Each place of the prefix holds what stands there in `s`; under a star anything can, if the name is that long. */
  ghost predicate PrefixHolds(p: seq<Atom>, s: seq<Atom>)
  {
    if p == [] then true
    else if s == [] then false
    else if s[0].Star? then MinWidth(s) >= |p| && forall i | 0 <= i < |p| :: HoldsAll(p[i], Any)
    else HoldsAll(p[0], s[0]) && PrefixHolds(p[1..], s[1..])
  }

  ghost predicate AllStart(p: seq<Atom>, s: seq<Atom>) { forall v | MatchAtoms(s, v) :: Starts(p, v) }

  lemma {:induction false} PrefixHoldsIff(p: seq<Atom>, s: seq<Atom>)
    requires !Dead(s)
    ensures AllStart(p, s) <==> PrefixHolds(p, s)
  {
    if p != [] {
      var w := Shortest(s);
      if s != [] && s[0].Star? {
        UnderStar(p, s, w);
      } else if s != [] {
        assert forall i | 0 <= i < |s[1..]| :: s[1..][i] == s[i + 1];
        PrefixHoldsIff(p[1..], s[1..]);
        FirstPlace(p, s);
      }
    }
  }

  lemma UnderStar(p: seq<Atom>, s: seq<Atom>, w: string)
    requires p != [] && s != [] && s[0].Star? && MatchAtoms(s, w) && |w| == MinWidth(s)
    ensures AllStart(p, s) <==> PrefixHolds(p, s)
  {
    if AllStart(p, s) {
      assert Starts(p, w);
      forall i, c: char | 0 <= i < |p| ensures Holds(p[i], c) {
        var x := seq(|p|, _ => c);
        StarAbsorbs(s, x, w);
        assert Starts(p, x + w) && (x + w)[i] == c;
      }
    }
    if PrefixHolds(p, s) {
      forall v | MatchAtoms(s, v) ensures Starts(p, v) {
        AtLeastMinWidth(s, v);
        assert forall i | 0 <= i < |p| :: HoldsAll(p[i], Any) && Holds(Any, v[i]);
      }
    }
  }

  lemma StartsCons(p: seq<Atom>, v: string)
    requires p != []
    ensures Starts(p, v) <==> v != "" && Holds(p[0], v[0]) && Starts(p[1..], v[1..])
  {
    assert forall i | 0 <= i < |p[1..]| :: p[1..][i] == p[i + 1];
    if v != "" { assert forall i | 0 <= i < |v[1..]| :: v[1..][i] == v[i + 1]; }
  }

  lemma FirstPlace(p: seq<Atom>, s: seq<Atom>)
    requires p != [] && s != [] && !s[0].Star? && !Dead(s)
    ensures AllStart(p, s) <==> HoldsAll(p[0], s[0]) && AllStart(p[1..], s[1..])
  {
    assert forall i | 0 <= i < |s[1..]| :: s[1..][i] == s[i + 1];
    if AllStart(p, s) {
      var w := Shortest(s[1..]);
      var c0 := EmptyHoldsNothing(s[0]);
      forall c | Holds(s[0], c) ensures Holds(p[0], c) {
        assert ([c] + w)[1..] == w && MatchAtoms(s, [c] + w);
        StartsCons(p, [c] + w);
      }
      forall v | MatchAtoms(s[1..], v) ensures Starts(p[1..], v) {
        assert ([c0] + v)[1..] == v && MatchAtoms(s, [c0] + v);
        StartsCons(p, [c0] + v);
      }
    }
    if HoldsAll(p[0], s[0]) && AllStart(p[1..], s[1..]) {
      forall v | MatchAtoms(s, v) ensures Starts(p, v) {
        StartsCons(p, v);
      }
    }
  }

  /**
   * A pattern whose only star is its last atom includes another exactly when its other atoms hold what the other begins
   * with.
   */
  lemma OneStarIncludes(p: seq<Atom>, s: seq<Atom>)
    requires StarFree(p)
    ensures Includes(p + [Star], s) <==> Dead(s) || PrefixHolds(p, s)
  {
    if Dead(s) {
      forall v ensures !MatchAtoms(s, v) { DeadMatchesNothing(s, v); }
    } else {
      forall v ensures MatchAtoms(p + [Star], v) <==> Starts(p, v) { OneStarMatch(p, v); }
      PrefixHoldsIff(p, s);
    }
  }

  /** With stars anywhere it does so whenever the other begins with the very same atoms. */
  lemma SharedPrefixIncludes(p: seq<Atom>, s: seq<Atom>)
    requires p <= s
    ensures Includes(p + [Star], s)
  {
    forall v | MatchAtoms(s, v) ensures MatchAtoms(p + [Star], v) {
      assert s == p + s[|p|..];
      var i := MatchSplits(p, s[|p|..], v);
      AnythingMatchesStar(v[i..]);
      MatchJoins(p, [Star], v[..i], v[i..]);
      assert v == v[..i] + v[i..];
    }
  }

  // ---------------------------------------------------------------- any two patterns

  // A set of places of `b` stands for the names that what remains of `b` from one of them matches.
  type Places = set<nat>

  ghost predicate Accepts(b: seq<Atom>, from: Places, v: string)
  {
    exists i | i in from :: i <= |b| && MatchAtoms(b[i..], v)
  }

  /** The places left after one more character. */
  function Behind(b: seq<Atom>, i: nat, c: char): (r: Places)
    requires i <= |b|
    ensures forall j | j in r :: j <= |b|
    decreases |b| - i
  {
    if i == |b| then {}
    else if b[i].Star? then {i} + Behind(b, i + 1, c)
    else if Holds(b[i], c) then {i + 1}
    else {}
  }

  function UpTo(n: nat): (r: Places)
    ensures forall i: nat :: i in r <==> i <= n
  {
    if n == 0 then {0} else UpTo(n - 1) + {n}
  }

  predicate InPattern(b: seq<Atom>, from: Places) { forall i | i in from :: i <= |b| }

  function AllBehind(b: seq<Atom>, from: Places, c: char): (r: Places)
    requires InPattern(b, from)
    ensures InPattern(b, r)
  {
    set i, j | i in from && j in Behind(b, i, c) :: j
  }

  ghost predicate StaysIn(b: seq<Atom>, t: Places, family: set<Places>)
  {
    InPattern(b, t) && forall c: char :: AllBehind(b, t, c) in family
  }

  ghost predicate Closed(b: seq<Atom>, family: set<Places>) { forall t | t in family :: StaysIn(b, t, family) }

  predicate AllStars(atoms: seq<Atom>) { forall i | 0 <= i < |atoms| :: atoms[i].Star? }

  /**
   * Does `b`, from the given places, match all that `s` matches? Walking along `s`: any character a place of `s` holds
   * may come; a star of `s` is passed by a family of sets of places that no character leads out of.
   */
  ghost predicate Follows(b: seq<Atom>, from: Places, s: seq<Atom>)
    requires InPattern(b, from)
    decreases |s|, 0
  {
    if s == [] then exists i | i in from :: AllStars(b[i..])
    else if s[0].Star? then
      exists family: set<Places> :: from in family && Closed(b, family) && AllFollow(b, family, s[1..])
    else forall c | Holds(s[0], c) :: Follows(b, AllBehind(b, from, c), s[1..])
  }

  ghost predicate AllFollow(b: seq<Atom>, family: set<Places>, s: seq<Atom>)
    decreases |s|, 1
  {
    forall t | t in family :: InPattern(b, t) && Follows(b, t, s)
  }

  lemma {:induction false} EmptyMatch(atoms: seq<Atom>)
    ensures MatchAtoms(atoms, "") <==> AllStars(atoms)
  {
    if atoms != [] {
      assert forall i | 0 <= i < |atoms[1..]| :: atoms[1..][i] == atoms[i + 1];
      EmptyMatch(atoms[1..]);
    }
  }

  lemma {:induction false} BehindOne(b: seq<Atom>, i: nat, c: char, v: string)
    requires i <= |b|
    ensures MatchAtoms(b[i..], [c] + v) <==> Accepts(b, Behind(b, i, c), v)
    decreases |b| - i
  {
    assert ([c] + v)[1..] == v;
    if i < |b| {
      assert b[i..][1..] == b[i + 1..];
      if b[i].Star? {
        BehindOne(b, i + 1, c, v);
        var here, later := Behind(b, i, c), Behind(b, i + 1, c);
        if MatchAtoms(b[i..], v) { assert i in here; }
        if Accepts(b, later, v) {
          var j :| j in later && j <= |b| && MatchAtoms(b[j..], v);
          assert j in here;
        }
      } else if Holds(b[i], c) {
        assert Behind(b, i, c) == {i + 1} && i + 1 in Behind(b, i, c);
      }
    }
  }

  lemma BehindAll(b: seq<Atom>, from: Places, c: char, v: string)
    requires InPattern(b, from)
    ensures Accepts(b, from, [c] + v) <==> Accepts(b, AllBehind(b, from, c), v)
  {
    if Accepts(b, from, [c] + v) {
      var i :| i in from && i <= |b| && MatchAtoms(b[i..], [c] + v);
      BehindOne(b, i, c, v);
      var j :| j in Behind(b, i, c) && j <= |b| && MatchAtoms(b[j..], v);
      assert j in AllBehind(b, from, c);
    }
    if Accepts(b, AllBehind(b, from, c), v) {
      var j :| j in AllBehind(b, from, c) && j <= |b| && MatchAtoms(b[j..], v);
      var i :| i in from && j in Behind(b, i, c);
      BehindOne(b, i, c, v);
    }
  }

  ghost predicate AcceptsAll(b: seq<Atom>, from: Places, s: seq<Atom>)
  {
    forall v | MatchAtoms(s, v) :: Accepts(b, from, v)
  }

  lemma {:induction false} FollowsIff(b: seq<Atom>, from: Places, s: seq<Atom>)
    requires InPattern(b, from)
    ensures Follows(b, from, s) <==> AcceptsAll(b, from, s)
    decreases |s|
  {
    if s == [] {
      forall i | i in from ensures MatchAtoms(b[i..], "") <==> AllStars(b[i..]) { EmptyMatch(b[i..]); }
      assert AcceptsAll(b, from, s) <==> Accepts(b, from, "") by { assert MatchAtoms(s, ""); }
    } else {
      forall t | InPattern(b, t) ensures Follows(b, t, s[1..]) <==> AcceptsAll(b, t, s[1..]) {
        FollowsIff(b, t, s[1..]);
      }
      if s[0].Star? {
        FollowsStar(b, from, s);
      } else {
        FollowsOne(b, from, s);
      }
    }
  }

  lemma AcceptsAllBehind(b: seq<Atom>, from: Places, s: seq<Atom>)
    requires InPattern(b, from) && s != [] && !s[0].Star?
    ensures AcceptsAll(b, from, s) <==> forall c | Holds(s[0], c) :: AcceptsAll(b, AllBehind(b, from, c), s[1..])
  {
    hide AllBehind, Accepts, Holds;
    if forall c | Holds(s[0], c) :: AcceptsAll(b, AllBehind(b, from, c), s[1..]) {
      forall v | MatchAtoms(s, v) ensures Accepts(b, from, v) {
        assert v == [v[0]] + v[1..];
        BehindAll(b, from, v[0], v[1..]);
        assert AcceptsAll(b, AllBehind(b, from, v[0]), s[1..]);
      }
    }
    if AcceptsAll(b, from, s) {
      forall c | Holds(s[0], c) ensures AcceptsAll(b, AllBehind(b, from, c), s[1..]) {
        forall v | MatchAtoms(s[1..], v) ensures Accepts(b, AllBehind(b, from, c), v) {
          assert ([c] + v)[1..] == v && MatchAtoms(s, [c] + v);
          BehindAll(b, from, c, v);
        }
      }
    }
  }

  lemma FollowsOne(b: seq<Atom>, from: Places, s: seq<Atom>)
    requires InPattern(b, from) && s != [] && !s[0].Star?
    requires forall t | InPattern(b, t) :: Follows(b, t, s[1..]) <==> AcceptsAll(b, t, s[1..])
    ensures Follows(b, from, s) <==> AcceptsAll(b, from, s)
  {
    hide AllBehind, AcceptsAll, Holds;
    AcceptsAllBehind(b, from, s);
    assert Follows(b, from, s) <==> forall c | Holds(s[0], c) :: Follows(b, AllBehind(b, from, c), s[1..]);
    forall c | Holds(s[0], c)
      ensures Follows(b, AllBehind(b, from, c), s[1..]) <==> AcceptsAll(b, AllBehind(b, from, c), s[1..])
    {
      assert InPattern(b, AllBehind(b, from, c));
    }
  }

  /** A set of places that accepts whatever a star and then `s` match. */
  ghost predicate Passes(b: seq<Atom>, t: Places, s: seq<Atom>)
  {
    forall x: string, v | MatchAtoms(s, v) :: Accepts(b, t, x + v)
  }

  lemma PassesOn(b: seq<Atom>, t: Places, c: char, s: seq<Atom>)
    requires InPattern(b, t) && Passes(b, t, s)
    ensures Passes(b, AllBehind(b, t, c), s)
  {
    forall x: string, v | MatchAtoms(s, v) ensures Accepts(b, AllBehind(b, t, c), x + v) {
      assert ([c] + x) + v == [c] + (x + v);
      assert Accepts(b, t, ([c] + x) + v);
      BehindAll(b, t, c, x + v);
    }
  }

  lemma FollowsStar(b: seq<Atom>, from: Places, s: seq<Atom>)
    requires InPattern(b, from) && s != [] && s[0].Star?
    requires forall t | InPattern(b, t) :: Follows(b, t, s[1..]) <==> AcceptsAll(b, t, s[1..])
    ensures Follows(b, from, s) <==> AcceptsAll(b, from, s)
  {
    hide Closed, AcceptsAll, Accepts, MatchAtoms, InPattern;
    if Follows(b, from, s) {
      var family: set<Places> :|
        from in family && Closed(b, family) && AllFollow(b, family, s[1..]);
      FamilyAccepts(b, from, s, family);
    }
    if AcceptsAll(b, from, s) {
      FamilyOfAll(b, from, s);
    }
  }

  /** What a closed family of sets that accept the rest gives the star before it ... */
  lemma FamilyAccepts(b: seq<Atom>, from: Places, s: seq<Atom>, family: set<Places>)
    requires s != [] && s[0].Star? && from in family && Closed(b, family)
    requires forall t | t in family :: AcceptsAll(b, t, s[1..])
    ensures AcceptsAll(b, from, s)
  {
    hide Closed, Accepts, MatchAtoms;
    forall v | MatchAtoms(s, v) ensures Accepts(b, from, v) {
      StaysInFamily(b, from, s, family, v);
    }
  }

  /** ... and where the star's family comes from: all the sets that accept whatever a star and the rest match. */
  lemma FamilyOfAll(b: seq<Atom>, from: Places, s: seq<Atom>)
    requires InPattern(b, from) && s != [] && s[0].Star? && AcceptsAll(b, from, s)
    requires forall t | InPattern(b, t) :: Follows(b, t, s[1..]) <==> AcceptsAll(b, t, s[1..])
    ensures Follows(b, from, s)
  {
    hide Follows, Passes, AcceptsAll, Accepts, MatchAtoms, AllBehind;
    var family := set t: Places | t <= UpTo(|b|) && Passes(b, t, s[1..]);
    AcceptsPasses(b, from, s);
    assert from in family;
    forall t | t in family ensures StaysIn(b, t, family) {
      forall c: char ensures AllBehind(b, t, c) in family {
        PassesOn(b, t, c, s[1..]);
      }
    }
    forall t | t in family ensures InPattern(b, t) && Follows(b, t, s[1..]) {
      PassesAccepts(b, t, s[1..]);
    }
    ByFamily(b, from, s, family);
  }

  lemma ByFamily(b: seq<Atom>, from: Places, s: seq<Atom>, family: set<Places>)
    requires InPattern(b, from) && s != [] && s[0].Star?
    requires from in family && Closed(b, family) && AllFollow(b, family, s[1..])
    ensures Follows(b, from, s)
  {
    hide Closed, AllFollow;
  }

  lemma AcceptsPasses(b: seq<Atom>, from: Places, s: seq<Atom>)
    requires s != [] && s[0].Star? && AcceptsAll(b, from, s)
    ensures Passes(b, from, s[1..])
  {
    hide Accepts, MatchAtoms;
    forall x: string, v | MatchAtoms(s[1..], v) ensures Accepts(b, from, x + v) {
      StarAbsorbs(s, x, v);
    }
  }

  lemma PassesAccepts(b: seq<Atom>, t: Places, s: seq<Atom>)
    requires Passes(b, t, s)
    ensures AcceptsAll(b, t, s)
  {
    hide Accepts, MatchAtoms;
    forall v | MatchAtoms(s, v) ensures Accepts(b, t, v) {
      assert "" + v == v;
    }
  }

  lemma {:induction false} StaysInFamily(b: seq<Atom>, from: Places, s: seq<Atom>, family: set<Places>, v: string)
    requires s != [] && s[0].Star? && MatchAtoms(s, v)
    requires from in family && Closed(b, family)
    requires forall t | t in family :: AcceptsAll(b, t, s[1..])
    ensures Accepts(b, from, v)
    decreases |v|
  {
    if !MatchAtoms(s[1..], v) {
      StaysInFamily(b, AllBehind(b, from, v[0]), s, family, v[1..]);
      assert v == [v[0]] + v[1..];
      BehindAll(b, from, v[0], v[1..]);
    }
  }

  /** The walk decides inclusion, for any two patterns. */
  lemma FollowsDecidesInclusion(b: seq<Atom>, s: seq<Atom>)
    ensures Follows(b, {0}, s) <==> Includes(b, s)
  {
    FollowsIff(b, {0}, s);
    assert b[0..] == b;
    assert 0 in {0};
    forall v ensures Accepts(b, {0}, v) <==> MatchAtoms(b, v) {
      if MatchAtoms(b, v) { assert MatchAtoms(b[0..], v); }
    }
  }
}
