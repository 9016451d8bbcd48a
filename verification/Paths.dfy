/** Lexical path normalisation and containment, with no file system behind them. */
module Paths {

  import opened Text

  // ---------------------------------------------------------------- normalisation

  // One or two leading slashes, as section 4.13 of IEEE Std 1003.1 distinguishes them, then the components.
  datatype Abs = Abs(slashes: nat, components: seq<string>)

  predicate SlashFree(s: string) { '/' !in s }

  predicate IsComponent(part: string) { SlashFree(part) && part != "" && part != "." && part != ".." }

  predicate Normal(abs: Abs)
  {
    1 <= abs.slashes <= 2 && forall i | 0 <= i < |abs.components| :: IsComponent(abs.components[i])
  }

  function Render(abs: Abs): string
    requires 1 <= abs.slashes <= 2
  {
    (if abs.slashes == 2 then "//" else "/") + Join(abs.components, '/')
  }

  /** The components standing after one more: empty and `.` are skipped, `..` takes one off when there is one. */
  function Step(done: seq<string>, part: string): seq<string>
  {
    if part == "" || part == "." then done
    else if part != ".." then done + [part]
    else if done != [] then done[..|done| - 1]
    else done
  }

  function Resolve(done: seq<string>, parts: seq<string>): seq<string>
    decreases |parts|
  {
    if parts == [] then done else Resolve(Step(done, parts[0]), parts[1..])
  }

  function Anchored(path: string): (p: string)
    ensures p != "" && p[0] == '/'
  {
    if path != "" && path[0] == '/' then path else "/" + path
  }

  function LeadingSlashes(path: string): (n: nat)
    ensures 1 <= n <= 2
  {
    if |path| >= 2 && path[1] == '/' && !(|path| >= 3 && path[2] == '/') then 2 else 1
  }

  function Parse(path: string): Abs
  {
    var p := Anchored(path);
    Abs(LeadingSlashes(p), Resolve([], Split(p, '/')))
  }

  function LexicalAbs(path: string): string { Render(Parse(path)) }

  lemma {:induction false} ResolveNormal(done: seq<string>, parts: seq<string>)
    requires forall i | 0 <= i < |done| :: IsComponent(done[i])
    requires forall i | 0 <= i < |parts| :: SlashFree(parts[i])
    ensures forall i | 0 <= i < |Resolve(done, parts)| :: IsComponent(Resolve(done, parts)[i])
    decreases |parts|
  {
    if parts != [] { ResolveNormal(Step(done, parts[0]), parts[1..]); }
  }

  /** No component of a normalised path is empty, `.` or `..`, or holds a slash. */
  lemma ParseNormal(path: string)
    ensures Normal(Parse(path))
  {
    ResolveNormal([], Split(Anchored(path), '/'));
  }

  lemma {:induction false} ResolveComponents(done: seq<string>, parts: seq<string>)
    requires forall i | 0 <= i < |parts| :: IsComponent(parts[i])
    ensures Resolve(done, parts) == done + parts
    decreases |parts|
  {
    if parts != [] {
      ResolveComponents(done + [parts[0]], parts[1..]);
      assert done + [parts[0]] + parts[1..] == done + parts;
    }
  }

  function Blanks(n: nat): seq<string> { seq(n, _ => "") }

  lemma SplitRendered(abs: Abs)
    requires Normal(abs) && abs.components != []
    ensures Split(Render(abs), '/') == Blanks(abs.slashes) + abs.components
  {
    var rest := Join(abs.components, '/');
    SplitJoin(abs.components, '/');
    SplitAppend("", rest, '/');
    assert "" + "/" + rest == "/" + rest && Split("", '/') == [""];
    if abs.slashes == 2 {
      SplitAppend("", "/" + rest, '/');
      assert "" + "/" + ("/" + rest) == "//" + rest;
    }
  }

  /** Rendering a normal path and reading it back loses nothing. */
  lemma ParseRender(abs: Abs)
    requires Normal(abs)
    ensures Parse(Render(abs)) == abs
  {
    var text := Render(abs);
    if abs.components == [] {
      assert Split("", '/') == [""] && "/"[1..] == "" && "//"[1..] == "/";
      assert Split("/", '/') == ["", ""] && Split("//", '/') == ["", "", ""];
      SkipBlanks(abs.slashes + 1, []);
      assert Blanks(2) == ["", ""] && Blanks(3) == ["", "", ""];
      assert Blanks(abs.slashes + 1) + [] == Split(text, '/');
    } else {
      assert abs.components[0] != "" && '/' !in abs.components[0];
      var c := Join(abs.components, '/');
      assert c != "" && c[0] == abs.components[0][0] && c[0] != '/';
      SplitRendered(abs);
      SkipBlanks(abs.slashes, abs.components);
      ResolveComponents([], abs.components);
    }
  }

  lemma {:induction false} SkipBlanks(n: nat, parts: seq<string>)
    ensures Resolve([], Blanks(n) + parts) == Resolve([], parts)
  {
    if n == 0 {
      assert Blanks(n) + parts == parts;
    } else {
      assert (Blanks(n) + parts)[1..] == Blanks(n - 1) + parts;
      SkipBlanks(n - 1, parts);
    }
  }

  lemma LexicalAbsIdempotent(path: string)
    ensures LexicalAbs(LexicalAbs(path)) == LexicalAbs(path)
  {
    ParseNormal(path);
    ParseRender(Parse(path));
  }

  lemma {:induction false} ResolveAppend(done: seq<string>, a: seq<string>, b: seq<string>)
    ensures Resolve(done, a + b) == Resolve(Resolve(done, a), b)
    decreases |a|
  {
    if a == [] {
      assert a + b == b;
    } else {
      assert (a + b)[0] == a[0] && (a + b)[1..] == a[1..] + b;
      ResolveAppend(Step(done, a[0]), a[1..], b);
    }
  }

  /** Without the component in between, a slash behind an empty or bare-root beginning joins the leading slashes. */
  predicate SlashesMeet(before: string, after: string)
  {
    && after != "" && after[0] == '/'
    && (before == "/" || (before == "" && (|after| == 1 || after[1] != '/')))
  }

  function RootOf(before: string): string { if before == "" then "" else Anchored(before) }

  lemma LeadingOfRooted(root: string, rest: string)
    requires root == "" || root[0] == '/'
    ensures LeadingSlashes(root + "/" + rest)
            == if root == "/" then (if rest != "" && rest[0] == '/' then 1 else 2)
               else if root == "" then
                 (if rest != "" && rest[0] == '/' && (|rest| == 1 || rest[1] != '/') then 2 else 1)
               else if root[1] == '/' && |root| >= 3 && root[2] != '/' then 2
               else 1
  {
    var path := root + "/" + rest;
    assert |root| >= 2 ==> path[1] == root[1] && path[2] == if |root| >= 3 then root[2] else '/';
    assert |root| == 1 ==> path[1] == '/' && (rest != "" ==> path[2] == rest[0]);
    assert root == "" ==> path == "/" + rest;
  }

  lemma ResolveDownAndUp(root: string, name: string, after: string)
    requires IsComponent(name)
    ensures Resolve([], Split(root + "/" + (name + "/" + (".." + "/" + after)), '/'))
            == Resolve([], Split(root + "/" + after, '/'))
  {
    hide Resolve, Split, IsComponent;
    SplitAppend(root, after, '/');
    SplitAppend(root, name + "/" + (".." + "/" + after), '/');
    SplitAppend(name, ".." + "/" + after, '/');
    SplitAppend("..", after, '/');
    OnePart(name);
    SplitPart("..", '/');
    ResolveAppend([], Split(root, '/'), Split(after, '/'));
    ResolveAppend([], Split(root, '/'), [name] + ([".."] + Split(after, '/')));
    BackUp(Resolve([], Split(root, '/')), name, Split(after, '/'));
  }

  lemma OnePart(name: string)
    requires IsComponent(name)
    ensures Split(name, '/') == [name] && name != "" && name[0] != '/'
  {
    assert name[0] in name;
    SplitPart(name, '/');
  }

  /**
   * Going down into a component and back up never changes the components, and changes the root only where slashes meet.
   */
  lemma DownAndUp(before: string, name: string, after: string)
    requires IsComponent(name)
    ensures var long, short := Parse(before + "/" + name + "/../" + after), Parse(before + "/" + after);
            long.components == short.components && (long == short <==> !SlashesMeet(before, after))
  {
    hide Resolve, Split, IsComponent, LeadingSlashes;
    var root := RootOf(before);
    var down := name + "/" + (".." + "/" + after);
    var long, short := before + "/" + name + "/../" + after, before + "/" + after;
    assert long == before + "/" + down;
    assert Anchored(short) == root + "/" + after && Anchored(long) == root + "/" + down;
    OnePart(name);
    assert down[0] == name[0];
    LeadingOfRooted(root, after);
    LeadingOfRooted(root, down);
    ResolveDownAndUp(root, name, after);
  }

  lemma SplitTriple()
    ensures Split("///x", '/') == ["", "", "", "x"]
  {
    hide Split;
    SplitPart("", '/');
    SplitPart("x", '/');
    SplitAppend("", "x", '/');
    SplitAppend("", "/x", '/');
    SplitAppend("", "//x", '/');
    assert "" + "/" + "x" == "/x" && "" + "/" + "/x" == "//x" && "" + "/" + "//x" == "///x";
    assert [""] + ([""] + ([""] + ["x"])) == ["", "", "", "x"];
  }

  lemma ResolveTriple()
    ensures Resolve([], ["", "", "", "x"]) == ["x"]
  {
    hide Split;
    assert ["x"][1..] == [] && ["", "x"][1..] == ["x"] && ["", "", "x"][1..] == ["", "x"];
    assert ["", "", "", "x"][1..] == ["", "", "x"];
    assert Step([], "x") == ["x"] && Step([], "") == [];
    assert Resolve([], ["x"]) == ["x"];
    assert Resolve([], ["", "x"]) == ["x"];
    assert Resolve([], ["", "", "x"]) == ["x"];
  }

  /** They do meet in `//a/..//x`: with going down and up the path has two leading slashes, without it one. */
  lemma MeetingSlashes()
    ensures IsComponent("a") && SlashesMeet("/", "/x")
    ensures Parse("/" + "/" + "a" + "/../" + "/x") == Abs(2, ["x"])
    ensures Parse("/" + "/" + "/x") == Abs(1, ["x"])
  {
    hide Split, Resolve;
    SplitTriple();
    ResolveTriple();
    DownAndUp("/", "a", "/x");
    assert "/" + "/" + "/x" == "///x" && Anchored("///x") == "///x";
    var long := "/" + "/" + "a" + "/../" + "/x";
    assert Anchored(long) == long && long[1] == '/' && long[2] == 'a';
  }

  lemma BackUp(done: seq<string>, name: string, rest: seq<string>)
    requires IsComponent(name)
    ensures Resolve(done, [name] + ([".."] + rest)) == Resolve(done, rest)
  {
    assert ([name] + ([".."] + rest))[1..] == [".."] + rest && ([".."] + rest)[1..] == rest;
    assert Step(Step(done, name), "..") == done;
  }

  // ---------------------------------------------------------------- what a path means

  function Ups(parts: seq<string>): nat
  {
    if parts == [] then 0 else (if parts[0] == ".." then 1 else 0) + Ups(parts[1..])
  }

  function Downs(parts: seq<string>): nat
  {
    if parts == [] then 0 else (if IsComponent(parts[0]) then 1 else 0) + Downs(parts[1..])
  }

  /** In no stretch from the beginning do the `..` outnumber the components. */
  predicate NeverAbove(parts: seq<string>)
  {
    forall n | 0 <= n <= |parts| :: Ups(parts[..n]) <= Downs(parts[..n])
  }

  /** The parts that are components and are not taken back by what follows them, in order. */
  function Staying(parts: seq<string>): seq<string>
  {
    if parts == [] then []
    else (if IsComponent(parts[0]) && NeverAbove(parts[1..]) then [parts[0]] else []) + Staying(parts[1..])
  }

  // How far the parts climb at most above where they begin.
  function Climb(parts: seq<string>): nat
  {
    if parts == [] then 0
    else
      var later := Climb(parts[1..]);
      if parts[0] == ".." then later + 1
      else if IsComponent(parts[0]) && later > 0 then later - 1
      else later
  }

  lemma OneMoreHead(parts: seq<string>, n: nat)
    requires parts != [] && n < |parts|
    ensures Ups(parts[..n + 1]) == (if parts[0] == ".." then 1 else 0) + Ups(parts[1..][..n])
    ensures Downs(parts[..n + 1]) == (if IsComponent(parts[0]) then 1 else 0) + Downs(parts[1..][..n])
  {
    assert parts[..n + 1][1..] == parts[1..][..n];
  }

  /** The climb is the largest excess of `..` over components in any stretch from the beginning. */
  lemma {:induction false} ClimbIsExcess(parts: seq<string>)
    ensures forall n | 0 <= n <= |parts| :: Ups(parts[..n]) <= Downs(parts[..n]) + Climb(parts)
    ensures exists n :: 0 <= n <= |parts| && Ups(parts[..n]) == Downs(parts[..n]) + Climb(parts)
  {
    if parts == [] {
      assert parts[..0] == [] && Ups(parts[..0]) == Downs(parts[..0]) + Climb(parts);
    } else {
      hide IsComponent;
      var rest := parts[1..];
      ClimbIsExcess(rest);
      DotDotIsNoComponent();
      forall n | 0 <= n <= |parts| ensures Ups(parts[..n]) <= Downs(parts[..n]) + Climb(parts) {
        if n > 0 { OneMoreHead(parts, n - 1); } else { assert parts[..n] == []; }
      }
      var m :| 0 <= m <= |rest| && Ups(rest[..m]) == Downs(rest[..m]) + Climb(rest);
      OneMoreHead(parts, m);
      if IsComponent(parts[0]) && Climb(rest) == 0 {
        assert parts[..0] == [] && Ups(parts[..0]) == Downs(parts[..0]) + Climb(parts);
      } else {
        assert Ups(parts[..m + 1]) == Downs(parts[..m + 1]) + Climb(parts);
      }
    }
  }

  lemma DotDotIsNoComponent()
    ensures !IsComponent("..")
  {}

  lemma NeverAboveIffNoClimb(parts: seq<string>)
    ensures NeverAbove(parts) <==> Climb(parts) == 0
  {
    ClimbIsExcess(parts);
    hide Ups, Downs, Climb;
    var n :| 0 <= n <= |parts| && Ups(parts[..n]) == Downs(parts[..n]) + Climb(parts);
  }

  function Dropped<T>(done: seq<T>, n: nat): seq<T> { if n <= |done| then done[..|done| - n] else [] }

  lemma BehindComponent<T>(done: seq<T>, part: T, climb: nat, rest: seq<T>)
    ensures Dropped(done + [part], climb) + rest
            == if climb == 0 then Dropped(done, 0) + ([part] + rest) else Dropped(done, climb - 1) + rest
  {
    if climb == 0 {
      assert done + [part] + rest == done + ([part] + rest);
    } else if climb <= |done| {
      assert Dropped(done + [part], climb) == Dropped(done, climb - 1);
    }
  }

  lemma BehindDotDot<T>(done: seq<T>, climb: nat)
    ensures Dropped(if done == [] then [] else done[..|done| - 1], climb) == Dropped(done, climb + 1)
  {}

  lemma StepCases(done: seq<string>, part: string)
    requires SlashFree(part)
    ensures part == ".." ==> Step(done, part) == if done == [] then [] else done[..|done| - 1]
    ensures IsComponent(part) ==> Step(done, part) == done + [part] && part != ".."
    ensures part != ".." && !IsComponent(part) ==> Step(done, part) == done
  {}

  lemma HeadMeans(parts: seq<string>)
    requires parts != []
    ensures var rest := parts[1..];
            && Climb(parts) == (if parts[0] == ".." then Climb(rest) + 1
                                else if IsComponent(parts[0]) && Climb(rest) > 0 then Climb(rest) - 1 else Climb(rest))
            && Staying(parts)
               == (if IsComponent(parts[0]) && Climb(rest) == 0 then [parts[0]] else []) + Staying(rest)
  {
    hide NeverAbove, IsComponent;
    NeverAboveIffNoClimb(parts[1..]);
  }

  lemma {:induction false} ResolveMeans(done: seq<string>, parts: seq<string>)
    requires forall i | 0 <= i < |parts| :: SlashFree(parts[i])
    ensures Resolve(done, parts) == Dropped(done, Climb(parts)) + Staying(parts)
    decreases |parts|
  {
    hide Climb, Staying, Resolve, Step, IsComponent, SlashFree;
    if parts == [] {
      NothingMeans(done);
    } else {
      var part, rest := parts[0], parts[1..];
      ResolveMeans(Step(done, part), rest);
      Unroll(done, parts);
      HeadMeans(parts);
      StepCases(done, part);
      BehindComponent(done, part, Climb(rest), Staying(rest));
      BehindDotDot(done, Climb(rest));
    }
  }

  lemma NothingMeans(done: seq<string>)
    ensures Resolve(done, []) == done && Climb([]) == 0 && Staying([]) == [] && Dropped(done, 0) + [] == done
  {}

  lemma Unroll(done: seq<string>, parts: seq<string>)
    requires parts != []
    ensures Resolve(done, parts) == Resolve(Step(done, parts[0]), parts[1..])
  {}

  /**
   * The components of a path are its parts that are components and are not taken back: those behind which the `..`
   * never outnumber the components that follow. A `..` with nothing to take back, and every empty part and `.`, says
   * nothing.
   */
  lemma ParseMeans(path: string)
    ensures Parse(path).components == Staying(Split(path, '/'))
    ensures Parse(path).slashes == if "//" <= path && !("///" <= path) then 2 else 1
  {
    hide Split, Staying, Resolve;
    var p := Anchored(path);
    ResolveMeans([], Split(p, '/'));
    var none: seq<string> := [];
    assert Dropped(none, Climb(Split(p, '/'))) == [];
    assert [] + Staying(Split(p, '/')) == Staying(Split(p, '/'));
    if p != path {
      SplitAppend("", path, '/');
      assert "" + "/" + path == p;
      SplitNothing();
      EmptySaysNothing(Split(path, '/'));
    }
    LeadingIs(path);
  }

  lemma SplitNothing()
    ensures Split("", '/') == [""]
  {}

  lemma EmptySaysNothing(parts: seq<string>)
    ensures Staying([""] + parts) == Staying(parts)
  {
    hide NeverAbove;
    assert ([""] + parts)[1..] == parts;
  }

  lemma LeadingIs(path: string)
    ensures LeadingSlashes(Anchored(path)) == if "//" <= path && !("///" <= path) then 2 else 1
  {
    assert "//"[0] == "//"[1] == '/' && "///"[0] == "///"[1] == "///"[2] == '/';
  }

  /** A relative path is read behind one slash. */
  lemma RelativePath(path: string)
    requires path == "" || path[0] != '/'
    ensures Parse(path) == Parse("/" + path) && Parse(path).slashes == 1
  {}

  function Plain(parts: seq<string>): seq<string>
  {
    if parts == [] then [] else (if parts[0] == "" || parts[0] == "." then [] else [parts[0]]) + Plain(parts[1..])
  }

  lemma {:induction false} PlainResolves(done: seq<string>, parts: seq<string>)
    requires ".." !in parts
    ensures Resolve(done, parts) == done + Plain(parts)
    decreases |parts|
  {
    hide Plain, Resolve, Step;
    if parts == [] {
      NothingPlain(done);
    } else {
      var part, rest := parts[0], parts[1..];
      assert part in parts;
      PlainResolves(Step(done, part), rest);
      Unroll(done, parts);
      PlainHead(done, parts);
      AppendAssociates(done, if part == "" || part == "." then [] else [part], Plain(rest));
    }
  }

  lemma NothingPlain(done: seq<string>)
    ensures Resolve(done, []) == done && done + Plain([]) == done
  {}

  lemma PlainHead(done: seq<string>, parts: seq<string>)
    requires parts != [] && parts[0] != ".."
    ensures var head := if parts[0] == "" || parts[0] == "." then [] else [parts[0]];
            Step(done, parts[0]) == done + head && Plain(parts) == head + Plain(parts[1..])
  {}

  lemma AppendAssociates<T>(a: seq<T>, b: seq<T>, c: seq<T>)
    ensures a + b + c == a + (b + c)
  {}

  /** Without `..` a path's components are its parts other than the empty ones and `.`, in order. */
  lemma WithoutDotDot(path: string)
    requires ".." !in Split(path, '/')
    ensures Parse(path).components == Plain(Split(path, '/'))
  {
    hide Split, Resolve, Plain;
    if Anchored(path) != path {
      SplitAppend("", path, '/');
      assert "" + "/" + path == Anchored(path);
      SplitNothing();
      EmptyIsPlain(Split(path, '/'));
    }
    PlainResolves([], Split(Anchored(path), '/'));
    assert [] + Plain(Split(Anchored(path), '/')) == Plain(Split(Anchored(path), '/'));
  }

  lemma EmptyIsPlain(parts: seq<string>)
    ensures Plain([""] + parts) == Plain(parts)
  {
    assert ([""] + parts)[1..] == parts;
  }

  /** What one more part does to a path: `.` and nothing leave it, `..` takes its last component, a name is added. */
  lemma OneMorePart(before: string, part: string)
    requires SlashFree(part)
    ensures var done, now := Parse(before).components, Parse(before + "/" + part).components;
            now == if part == "" || part == "." then done
                   else if part == ".." then (if done == [] then [] else done[..|done| - 1])
                   else done + [part]
  {
    hide Split, Resolve;
    var rest: seq<string> := [part];
    SplitRooted(before, part);
    SplitPart(part, '/');
    ResolveAppend([], Split(Anchored(before), '/'), rest);
    ResolveOne(Resolve([], Split(Anchored(before), '/')), part);
  }

  lemma ResolveOne(done: seq<string>, part: string)
    ensures Resolve(done, [part]) == Step(done, part)
  {
    assert [part][1..] == [];
  }

  /** The parts of a path continued behind a slash, as far as they matter. */
  lemma SplitRooted(before: string, after: string)
    ensures Resolve([], Split(Anchored(before + "/" + after), '/'))
            == Resolve([], Split(Anchored(before), '/') + Split(after, '/'))
  {
    hide Split, Resolve;
    if before == "" {
      RootParts(after);
    } else {
      assert Anchored(before + "/" + after) == Anchored(before) + "/" + after;
      SplitAppend(Anchored(before), after, '/');
    }
  }

  lemma RootParts(after: string)
    ensures var path := "" + "/" + after;
            Resolve([], Split(Anchored(path), '/')) == Resolve([], Split(Anchored(""), '/') + Split(after, '/'))
  {
    hide Split, Resolve;
    SplitAppend("", after, '/');
    SplitAppend("", "", '/');
    SplitNothing();
    SkipBlanks(1, Split(after, '/'));
    SkipBlanks(2, Split(after, '/'));
    assert Blanks(1) == [""] && Blanks(2) == [""] + [""];
    assert Anchored("") == "" + "/" + "" && Anchored("" + "/" + after) == "" + "/" + after;
  }

  /** Behind the same beginning the same parts, up to what says nothing, give the same components. */
  lemma SkippedPart(before: string, skipped: string, after: string)
    requires SlashFree(skipped)
    requires skipped == "" || skipped == "." || (skipped == ".." && Parse(before).components == [])
    ensures Parse(before + "/" + (skipped + "/" + after)).components == Parse(before + "/" + after).components
  {
    hide Split, Resolve;
    var parts := Split(Anchored(before), '/');
    SplitRooted(before, after);
    SplitRooted(before, skipped + "/" + after);
    SplitAppend(skipped, after, '/');
    SplitPart(skipped, '/');
    ResolveAppend([], parts, Split(after, '/'));
    ResolveAppend([], parts, [skipped] + Split(after, '/'));
    Unroll(Resolve([], parts), [skipped] + Split(after, '/'));
    assert ([skipped] + Split(after, '/'))[1..] == Split(after, '/');
  }

  /** Where an added slash meets the slashes of the root. */
  predicate SlashCounts(before: string, after: string)
  {
    || (before == "" && (|after| < 2 || after[0] != '/' || after[1] != '/'))
    || (before == "/" && (after == "" || after[0] != '/'))
  }

  lemma SlashesOf(before: string, after: string)
    ensures Parse(before + "/" + after).slashes == LeadingSlashes(RootOf(before) + "/" + after)
  {
    assert Anchored(before + "/" + after) == RootOf(before) + "/" + after;
  }

  /** A `.` between two slashes changes no component, and the leading slashes exactly where slashes meet without it. */
  lemma DotSaysNothing(before: string, after: string)
    ensures var dotted, short := Parse(before + "/./" + after), Parse(before + "/" + after);
            dotted.components == short.components && (dotted == short <==> !SlashesMeet(before, after))
  {
    hide Parse, LeadingSlashes;
    var rest := "." + "/" + after;
    SkippedPart(before, ".", after);
    assert before + "/./" + after == before + "/" + rest;
    SlashesOf(before, after);
    SlashesOf(before, rest);
    LeadingOfRooted(RootOf(before), after);
    LeadingOfRooted(RootOf(before), rest);
    assert rest[0] == '.';
  }

  /** One more slash changes no component, and the leading slashes exactly where it is the second or third of a root. */
  lemma SlashSaysNothing(before: string, after: string)
    ensures var doubled, short := Parse(before + "//" + after), Parse(before + "/" + after);
            doubled.components == short.components && (doubled == short <==> !SlashCounts(before, after))
  {
    hide Parse, LeadingSlashes;
    var rest := "/" + after;
    SkippedPart(before, "", after);
    assert "" + "/" + after == rest && before + "//" + after == before + "/" + rest;
    SlashesOf(before, after);
    SlashesOf(before, rest);
    LeadingOfRooted(RootOf(before), after);
    LeadingOfRooted(RootOf(before), rest);
    assert rest[0] == '/' && (after != "" ==> rest[1] == after[0]);
  }

  /** A `..` with nothing to take back changes no component, wherever it stands. */
  lemma NothingAboveTheRoot(before: string, after: string)
    requires Parse(before).components == []
    ensures Parse(before + "/../" + after).components == Parse(before + "/" + after).components
  {
    hide Parse;
    SkippedPart(before, "..", after);
    assert before + "/../" + after == before + "/" + (".." + "/" + after);
  }

  // ---------------------------------------------------------------- containment

  function TrimSlashes(s: string): string
  {
    if s != "" && s[|s| - 1] == '/' then TrimSlashes(s[..|s| - 1]) else s
  }

  predicate Within(target: string, actual: string)
  {
    var root := TrimSlashes(target);
    actual == root || root + "/" <= actual
  }

  /**
   * Every path lies within a bare root; any other target wants the same leading slashes and its own components first.
   */
  predicate Contains(target: Abs, actual: Abs)
  {
    target.components == [] || (target.slashes == actual.slashes && target.components <= actual.components)
  }

  lemma {:induction false} LastOfJoin(parts: seq<string>)
    requires parts != [] && forall i | 0 <= i < |parts| :: IsComponent(parts[i])
    ensures Join(parts, '/') != "" && Join(parts, '/')[|Join(parts, '/')| - 1] != '/'
  {
    var last := parts[|parts| - 1];
    assert last[|last| - 1] in last;
    if |parts| > 1 { LastOfJoin(parts[1..]); }
  }

  lemma TrimmedTarget(target: Abs)
    requires Normal(target)
    ensures TrimSlashes(Render(target)) == if target.components == [] then "" else Render(target)
  {
    if target.components == [] {
      assert "//"[..1] == "/" && "/"[..0] == "" && TrimSlashes("/") == "";
    } else {
      LastOfJoin(target.components);
    }
  }

  lemma ContainedIsWithin(target: Abs, actual: Abs)
    requires Normal(target) && Normal(actual) && target.components != []
    requires Contains(target, actual)
    ensures Render(actual) == Render(target) || Render(target) + "/" <= Render(actual)
  {
    var rest := actual.components[|target.components|..];
    assert actual.components == target.components + rest;
    if rest != [] {
      JoinAppend(target.components, rest, '/');
      assert Render(actual) == Render(target) + "/" + Join(rest, '/');
    } else {
      assert actual.components == target.components;
    }
  }

  lemma SamePrefix(m: nat, a: seq<string>, n: nat, t: seq<string>, rest: seq<string>)
    requires 1 <= m <= 2 && 1 <= n <= 2 && a != [] && t != [] && a[0] != "" && t[0] != ""
    requires Blanks(m) + a == (Blanks(n) + t) + rest
    ensures m == n && t <= a
  {
    var all := Blanks(m) + a;
    assert all[1] == if m == 2 then "" else a[0];
    assert all[1] == if n == 2 then "" else t[0];
    assert all[m..] == a && all[m..] == t + rest;
  }

  lemma WithinIsContained(target: Abs, actual: Abs, rest: string)
    requires Normal(target) && Normal(actual) && target.components != []
    requires Render(actual) == Render(target) + "/" + rest
    ensures Contains(target, actual)
  {
    hide Split, Join, Render;
    LongerThanRoot(target, actual, rest);
    SplitRendered(target);
    SplitRendered(actual);
    SplitAppend(Render(target), rest, '/');
    SamePrefix(actual.slashes, actual.components, target.slashes, target.components, Split(rest, '/'));
  }

  lemma LongerThanRoot(target: Abs, actual: Abs, rest: string)
    requires Normal(target) && 1 <= actual.slashes <= 2 && target.components != []
    requires Render(actual) == Render(target) + "/" + rest
    ensures actual.components != []
  {
    LastOfJoin(target.components);
  }

  /** The string test decides containment of the normalised paths: no spelling of a path escapes its target. */
  lemma WithinIffContains(target: string, value: string)
    ensures Within(LexicalAbs(target), LexicalAbs(value)) <==> Contains(Parse(target), Parse(value))
  {
    hide Parse, Render, Contains, TrimSlashes;
    var t, a := Parse(target), Parse(value);
    ParseNormal(target);
    ParseNormal(value);
    TrimmedTarget(t);
    if t.components == [] {
      RootContains(t, a);
    } else {
      if Contains(t, a) { ContainedIsWithin(t, a); }
      if Within(Render(t), Render(a)) { WithinMeansContained(t, a); }
    }
  }

  lemma RootContains(target: Abs, actual: Abs)
    requires Normal(actual) && target.components == []
    ensures Contains(target, actual) && "" + "/" <= Render(actual)
  {}

  lemma WithinMeansContained(t: Abs, a: Abs)
    requires Normal(t) && Normal(a) && t.components != []
    requires Render(a) == Render(t) || Render(t) + "/" <= Render(a)
    ensures Contains(t, a)
  {
    hide Render, Parse;
    if Render(a) == Render(t) {
      ParseRender(t);
      ParseRender(a);
    } else {
      var rest := Render(a)[|Render(t)| + 1..];
      assert Render(a) == Render(t) + "/" + rest;
      WithinIsContained(t, a, rest);
    }
  }
}
