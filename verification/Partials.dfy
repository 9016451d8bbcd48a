/** From a call on a possibly partial-wrapped tool to the named arguments the policy sees. */
module Partials {
  import opened Json

  type Named = map<string, Value>

  // ---------------------------------------------------------------- tools

  datatype ParamKind = Positional | VarPositional | KeywordOnly | VarKeyword

  datatype Param = Param(name: string, kind: ParamKind, fallback: Option<Value>)

  // A function without an inspectable signature has none.
  datatype Tool = Function(signature: Option<seq<Param>>) | Partial(func: Tool, args: seq<Value>, keywords: Named)

  datatype Invocation = Invocation(signature: Option<seq<Param>>, args: seq<Value>, kwargs: Named)

  /**
   * What calling a tool comes to: a wrapper calls what it wraps with its own arguments first and its keywords
   * overridable.
   */
  function Calls(tool: Tool, args: seq<Value>, kwargs: Named): Invocation
  {
    match tool
    case Function(signature) => Invocation(signature, args, kwargs)
    case Partial(func, bound, keywords) => Calls(func, bound + args, keywords + kwargs)
  }

  function Base(tool: Tool): Option<seq<Param>> { if tool.Function? then tool.signature else Base(tool.func) }

  /** The positional arguments all the wrappers bind, the innermost wrapper's first. */
  function BoundArgs(tool: Tool): seq<Value> { if tool.Function? then [] else BoundArgs(tool.func) + tool.args }

  /** The keywords all the wrappers bind; an outer wrapper's value wins. */
  function BoundKeywords(tool: Tool): Named
  {
    if tool.Function? then map[] else BoundKeywords(tool.func) + tool.keywords
  }

  /** However deep the wrappers nest, the base function gets their arguments inside out and then the caller's. */
  lemma {:induction false} CallsBase(tool: Tool, args: seq<Value>, kwargs: Named)
    ensures Calls(tool, args, kwargs) == Invocation(Base(tool), BoundArgs(tool) + args, BoundKeywords(tool) + kwargs)
  {
    match tool
    case Function(_) =>
      assert [] + args == args && map[] + kwargs == kwargs;
    case Partial(func, bound, keywords) =>
      CallsBase(func, bound + args, keywords + kwargs);
      assert BoundArgs(func) + (bound + args) == BoundArgs(tool) + args;
      assert BoundKeywords(func) + (keywords + kwargs) == BoundKeywords(tool) + kwargs;
  }

  // ---------------------------------------------------------------- what a function receives

  predicate TakesOne(p: Param) { p.kind.Positional? || p.kind.KeywordOnly? }

  function Rank(p: Param): nat
  {
    match p.kind
    case Positional => 0
    case VarPositional => 1
    case KeywordOnly => 2
    case VarKeyword => 3
  }

  /** A parameter list that can be declared: kinds in order, each collecting kind at most once, names distinct. */
  predicate WellFormed(sig: seq<Param>)
  {
    forall i, j | 0 <= i < j < |sig| ::
      && sig[i].name != sig[j].name
      && Rank(sig[i]) <= Rank(sig[j])
      && (sig[i].kind == sig[j].kind ==> TakesOne(sig[i]))
  }

  predicate Has(sig: seq<Param>, kind: ParamKind) { exists i | 0 <= i < |sig| :: sig[i].kind == kind }

  predicate Names(sig: seq<Param>, key: string) { exists i | 0 <= i < |sig| :: TakesOne(sig[i]) && sig[i].name == key }

  function Positions(sig: seq<Param>): nat
  {
    if sig == [] || !sig[0].kind.Positional? then 0 else 1 + Positions(sig[1..])
  }

  /** The value of the parameter at index `i`: by position, by keyword, or by default. */
  function ValueOf(sig: seq<Param>, i: nat, args: seq<Value>, kwargs: Named): Option<Value>
    requires i < |sig|
  {
    if sig[i].kind.Positional? && i < |args| then Some(args[i])
    else if sig[i].name in kwargs then Some(kwargs[sig[i].name])
    else sig[i].fallback
  }

  /** The calls the language accepts. */
  predicate Accepts(sig: seq<Param>, args: seq<Value>, kwargs: Named)
  {
    && (|args| <= Positions(sig) || Has(sig, VarPositional))
    && (forall i | 0 <= i < |sig| && i < |args| :: sig[i].kind.Positional? ==> sig[i].name !in kwargs)
    && (forall key | key in kwargs :: Names(sig, key) || Has(sig, VarKeyword))
    && (forall i | 0 <= i < |sig| :: TakesOne(sig[i]) ==> ValueOf(sig, i, args, kwargs).Some?)
  }

  // A value for each parameter that takes one, the surplus positions, the surplus keywords.
  datatype Environment = Environment(named: Named, rest: seq<Value>, extra: Named)

  ghost predicate Receives(sig: seq<Param>, args: seq<Value>, kwargs: Named, env: Environment)
  {
    && (forall key :: key in env.named <==> Names(sig, key))
    && (forall i | 0 <= i < |sig| && TakesOne(sig[i]) :: ValueOf(sig, i, args, kwargs) == Some(env.named[sig[i].name]))
    && env.rest == (if |args| <= Positions(sig) then [] else args[Positions(sig)..])
    && (forall key :: key in env.extra <==> key in kwargs && !Names(sig, key))
    && (forall key | key in env.extra :: env.extra[key] == kwargs[key])
  }

  /** A call determines what the function receives. */
  lemma ReceivesIsUnique(sig: seq<Param>, args: seq<Value>, kwargs: Named, env: Environment, other: Environment)
    requires Receives(sig, args, kwargs, env) && Receives(sig, args, kwargs, other)
    ensures env == other
  {
    assert forall key | key in env.named :: Names(sig, key);
    assert env.named.Keys == other.named.Keys && env.extra.Keys == other.extra.Keys;
    forall key | key in env.named ensures env.named[key] == other.named[key] {
      var i :| 0 <= i < |sig| && TakesOne(sig[i]) && sig[i].name == key;
      assert Some(env.named[sig[i].name]) == Some(other.named[sig[i].name]);
    }
  }

  // ---------------------------------------------------------------- binding

  datatype Bound = One(v: Value) | Many(vs: seq<Value>) | Extra(kw: Named)

  datatype Entry = Entry(name: string, value: Bound)

  function Prepend(head: seq<Entry>, tail: Option<seq<Entry>>): Option<seq<Entry>>
  {
    if tail.None? then None else Some(head + tail.value)
  }

  /**
   * Binding the arguments to the parameters from left to right, absent ones to their defaults; None for a call that
   * does not fit.
   */
  function Bind(sig: seq<Param>, args: seq<Value>, kwargs: Named): Option<seq<Entry>>
    decreases |sig|
  {
    if sig == [] then if args == [] && kwargs == map[] then Some([]) else None
    else
      var p, later := sig[0], sig[1..];
      match p.kind
      case VarPositional => Prepend([Entry(p.name, Many(args))], Bind(later, [], kwargs))
      case VarKeyword => if args != [] then None else Prepend([Entry(p.name, Extra(kwargs))], Bind(later, [], map[]))
      case _ =>
        if args != [] then
          if p.kind.KeywordOnly? || p.name in kwargs then None
          else Prepend([Entry(p.name, One(args[0]))], Bind(later, args[1..], kwargs))
        else if p.name in kwargs then Prepend([Entry(p.name, One(kwargs[p.name]))], Bind(later, [], kwargs - {p.name}))
        else Prepend(if p.fallback.Some? then [Entry(p.name, One(p.fallback.value))] else [], Bind(later, [], kwargs))
  }

  function Added(arguments: Named, e: Entry): Named
  {
    match e.value
    case One(v) => arguments[e.name := v]
    case Many(vs) => if vs == [] then arguments else arguments["_args" := Arr(vs)]
    case Extra(kw) => arguments + kw
  }

  function Collected(entries: seq<Entry>): Named
  {
    if entries == [] then map[] else Added(Collected(entries[..|entries| - 1]), entries[|entries| - 1])
  }

  /** The arguments the policy sees for a call on a base function. */
  function Seen(call: Invocation): Named
  {
    var entries := if call.signature.Some? then Bind(call.signature.value, call.args, call.kwargs) else None;
    if entries.Some? then Collected(entries.value)
    else if call.args == [] then call.kwargs
    else call.kwargs["_args" := Arr(call.args)]
  }

  method CallArguments(tool: Tool, args: seq<Value>, kwargs: Named) returns (arguments: Named)
    ensures arguments == Seen(Calls(tool, args, kwargs))
  {
    var f, a, k := tool, args, kwargs;
    while f.Partial?
      invariant Calls(f, a, k) == Calls(tool, args, kwargs)
      decreases f
    {
      a, k, f := f.args + a, f.keywords + k, f.func;
    }
    arguments := k;
    var bound := if f.signature.Some? then Bind(f.signature.value, a, k) else None;
    if bound.None? {
      if a != [] {
        arguments := arguments["_args" := Arr(a)];
      }
      return;
    }
    arguments := map[];
    for i := 0 to |bound.value|
      invariant arguments == Collected(bound.value[..i])
    {
      assert bound.value[..i + 1][..i] == bound.value[..i];
      var e := bound.value[i];
      match e.value
      case Many(vs) =>
        if vs != [] {
          arguments := arguments["_args" := Arr(vs)];
        }
      case Extra(kw) =>
        arguments := arguments + kw;
      case One(v) =>
        arguments := arguments[e.name := v];
    }
    assert bound.value[..|bound.value|] == bound.value;
  }

  // ---------------------------------------------------------------- binding finds what the function receives

  function NamedOf(entries: seq<Entry>): Named
  {
    if entries == [] then map[]
    else (if entries[0].value.One? then map[entries[0].name := entries[0].value.v] else map[]) + NamedOf(entries[1..])
  }

  function RestOf(entries: seq<Entry>): seq<Value>
  {
    if entries == [] then [] else (if entries[0].value.Many? then entries[0].value.vs else []) + RestOf(entries[1..])
  }

  function ExtraOf(entries: seq<Entry>): Named
  {
    if entries == [] then map[]
        else (if entries[0].value.Extra? then entries[0].value.kw else map[]) + ExtraOf(entries[1..])
  }

  function EnvironmentOf(entries: seq<Entry>): Environment
  {
    Environment(NamedOf(entries), RestOf(entries), ExtraOf(entries))
  }

  /** One more entry in front. */
  function Extended(e: Entry, env: Environment): Environment
  {
    match e.value
    case One(v) => env.(named := map[e.name := v] + env.named)
    case Many(vs) => env.(rest := vs + env.rest)
    case Extra(kw) => env.(extra := kw + env.extra)
  }

  lemma EnvironmentOfCons(e: Entry, entries: seq<Entry>)
    ensures EnvironmentOf([e] + entries) == Extended(e, EnvironmentOf(entries))
  {
    assert ([e] + entries)[1..] == entries;
    assert [] + RestOf(entries) == RestOf(entries);
    assert map[] + NamedOf(entries) == NamedOf(entries) && map[] + ExtraOf(entries) == ExtraOf(entries);
  }

  /** What is left of a call once its first parameter has its value. */
  function Later(p: Param, args: seq<Value>, kwargs: Named): (seq<Value>, Named)
  {
    match p.kind
    case VarPositional => ([], kwargs)
    case VarKeyword => ([], map[])
    case _ => if args != [] then (args[1..], kwargs) else ([], kwargs - {p.name})
  }

  function FirstEntry(sig: seq<Param>, args: seq<Value>, kwargs: Named): Entry
    requires sig != [] && Accepts(sig, args, kwargs)
  {
    var p := sig[0];
    match p.kind
    case VarPositional => Entry(p.name, Many(args))
    case VarKeyword => Entry(p.name, Extra(kwargs))
    case _ => assert TakesOne(p); Entry(p.name, One(ValueOf(sig, 0, args, kwargs).value))
  }

  lemma NamesCons(sig: seq<Param>, key: string)
    requires sig != []
    ensures Names(sig, key) <==> (TakesOne(sig[0]) && sig[0].name == key) || Names(sig[1..], key)
  {
    if Names(sig[1..], key) {
      var i :| 0 <= i < |sig[1..]| && TakesOne(sig[1..][i]) && sig[1..][i].name == key;
      assert sig[i + 1] == sig[1..][i];
    }
    if Names(sig, key) {
      var i :| 0 <= i < |sig| && TakesOne(sig[i]) && sig[i].name == key;
      if i > 0 { assert sig[1..][i - 1] == sig[i]; }
    }
  }

  lemma HasCons(sig: seq<Param>, kind: ParamKind)
    requires sig != []
    ensures Has(sig, kind) <==> sig[0].kind == kind || Has(sig[1..], kind)
  {
    if Has(sig[1..], kind) {
      var i :| 0 <= i < |sig[1..]| && sig[1..][i].kind == kind;
      assert sig[i + 1].kind == kind;
    }
    if Has(sig, kind) {
      var i :| 0 <= i < |sig| && sig[i].kind == kind;
      if i > 0 { assert sig[1..][i - 1].kind == kind; }
    }
  }

  lemma WellFormedTail(sig: seq<Param>)
    requires WellFormed(sig) && sig != []
    ensures WellFormed(sig[1..])
    ensures !Names(sig[1..], sig[0].name)
    ensures !sig[0].kind.Positional? ==> Positions(sig[1..]) == 0
    ensures Rank(sig[0]) >= 1 ==> !Has(sig[1..], VarPositional)
    ensures sig[0].kind.VarKeyword? ==> sig[1..] == []
  {
    var later := sig[1..];
    assert forall i | 0 <= i < |later| :: later[i] == sig[i + 1];
  }

  /** Every parameter of the rest has in the rest of the call the value it has in the whole. */
  lemma SameValue(sig: seq<Param>, args: seq<Value>, kwargs: Named, i: nat)
    requires WellFormed(sig) && sig != [] && Accepts(sig, args, kwargs)
    requires i < |sig| - 1 && TakesOne(sig[1..][i])
    ensures var (a, k) := Later(sig[0], args, kwargs);
            ValueOf(sig[1..], i, a, k) == ValueOf(sig, i + 1, args, kwargs)
  {
    var later := sig[1..];
    assert later[i] == sig[i + 1];
    WellFormedTail(sig);
  }

  lemma NoPositionsLeft(sig: seq<Param>, args: seq<Value>, kwargs: Named)
    requires WellFormed(sig) && sig != [] && Accepts(sig, args, kwargs) && Rank(sig[0]) >= 2
    ensures args == []
  {
    WellFormedTail(sig);
    HasCons(sig, VarPositional);
  }

  lemma AcceptsLater(sig: seq<Param>, args: seq<Value>, kwargs: Named)
    requires WellFormed(sig) && sig != [] && Accepts(sig, args, kwargs)
    ensures var (a, k) := Later(sig[0], args, kwargs); Accepts(sig[1..], a, k)
  {
    hide Has, Names, WellFormed;
    var (a, k) := Later(sig[0], args, kwargs);
    var later := sig[1..];
    WellFormedTail(sig);
    HasCons(sig, VarPositional);
    HasCons(sig, VarKeyword);
    if Rank(sig[0]) >= 2 { NoPositionsLeft(sig, args, kwargs); }
    forall i | 0 <= i < |later| && i < |a| ensures later[i].kind.Positional? ==> later[i].name !in k {
      assert later[i] == sig[i + 1];
    }
    forall key | key in k ensures Names(later, key) || Has(later, VarKeyword) {
      NamesCons(sig, key);
    }
    forall i | 0 <= i < |later| ensures TakesOne(later[i]) ==> ValueOf(later, i, a, k).Some? {
      assert later[i] == sig[i + 1];
      if TakesOne(later[i]) { SameValue(sig, args, kwargs, i); }
    }
  }

  lemma BindStep(sig: seq<Param>, args: seq<Value>, kwargs: Named)
    requires WellFormed(sig) && sig != [] && Accepts(sig, args, kwargs)
    ensures var (a, k) := Later(sig[0], args, kwargs);
            Bind(sig, args, kwargs) == Prepend([FirstEntry(sig, args, kwargs)], Bind(sig[1..], a, k))
  {
    hide Accepts, Has, Names, WellFormed;
    if Rank(sig[0]) >= 2 { NoPositionsLeft(sig, args, kwargs); }
    var p := sig[0];
    if TakesOne(p) { FirstTakes(sig, args, kwargs); }
    if p.name !in kwargs { assert kwargs - {p.name} == kwargs; }
  }

  lemma FirstTakes(sig: seq<Param>, args: seq<Value>, kwargs: Named)
    requires WellFormed(sig) && sig != [] && Accepts(sig, args, kwargs) && TakesOne(sig[0])
    ensures ValueOf(sig, 0, args, kwargs).Some?
    ensures args != [] ==> sig[0].kind.Positional? && sig[0].name !in kwargs
  {
    if Rank(sig[0]) >= 2 { NoPositionsLeft(sig, args, kwargs); }
  }

  /** One more parameter in front, as its value, what it collects, or what it leaves to the later ones. */
  lemma ReceivesMore(sig: seq<Param>, args: seq<Value>, kwargs: Named, env: Environment)
    requires WellFormed(sig) && sig != [] && Accepts(sig, args, kwargs)
    requires var (a, k) := Later(sig[0], args, kwargs); Receives(sig[1..], a, k, env)
    ensures Receives(sig, args, kwargs, Extended(FirstEntry(sig, args, kwargs), env))
  {
    var p := sig[0];
    WellFormedTail(sig);
    if TakesOne(p) { FirstTakes(sig, args, kwargs); }
    if Rank(p) >= 2 { NoPositionsLeft(sig, args, kwargs); }
    if TakesOne(p) {
      OneReceived(sig, args, kwargs, env);
    } else if p.kind.VarPositional? {
      RestReceived(sig, args, kwargs, env);
    } else {
      ExtraReceived(sig, args, kwargs, env);
    }
  }

  lemma LaterValues(sig: seq<Param>, args: seq<Value>, kwargs: Named, named: Named)
    requires WellFormed(sig) && sig != [] && Accepts(sig, args, kwargs)
    requires var (a, k) := Later(sig[0], args, kwargs);
             && (forall key :: key in named <==> Names(sig[1..], key))
             && forall i | 0 <= i < |sig[1..]| && TakesOne(sig[1..][i]) ::
                  ValueOf(sig[1..], i, a, k) == Some(named[sig[1..][i].name])
    ensures forall i | 0 < i < |sig| && TakesOne(sig[i]) ::
              sig[i].name in named && ValueOf(sig, i, args, kwargs) == Some(named[sig[i].name])
  {
    hide ValueOf, Names, WellFormed, Accepts, Later, TakesOne;
    forall i | 0 < i < |sig| && TakesOne(sig[i])
      ensures sig[i].name in named && ValueOf(sig, i, args, kwargs) == Some(named[sig[i].name])
    {
      var later := sig[1..];
      assert later[i - 1] == sig[i];
      SameValue(sig, args, kwargs, i - 1);
      NamedBy(later, i - 1);
    }
  }

  lemma OneReceived(sig: seq<Param>, args: seq<Value>, kwargs: Named, env: Environment)
    requires WellFormed(sig) && sig != [] && Accepts(sig, args, kwargs) && TakesOne(sig[0])
    requires var (a, k) := Later(sig[0], args, kwargs); Receives(sig[1..], a, k, env)
    requires args != [] ==> sig[0].kind.Positional? && sig[0].name !in kwargs
    requires !Names(sig[1..], sig[0].name)
    requires sig[0].kind.KeywordOnly? ==> args == [] && Positions(sig[1..]) == 0
    ensures Receives(sig, args, kwargs, Extended(FirstEntry(sig, args, kwargs), env))
  {
    hide Accepts, WellFormed, Has, Names;
    var e := FirstEntry(sig, args, kwargs);
    var more := Extended(e, env);
    LaterValues(sig, args, kwargs, env.named);
    FirstTakes(sig, args, kwargs);
    assert more == env.(named := map[sig[0].name := ValueOf(sig, 0, args, kwargs).value] + env.named);
    forall key ensures key in more.named <==> Names(sig, key) { NamesCons(sig, key); }
    forall key ensures key in more.extra <==> key in kwargs && !Names(sig, key) { NamesCons(sig, key); }
    forall i | 0 <= i < |sig| && TakesOne(sig[i])
      ensures ValueOf(sig, i, args, kwargs) == Some(more.named[sig[i].name])
    {
      if i > 0 { assert sig[i].name in env.named; }
    }
  }

  lemma RestReceived(sig: seq<Param>, args: seq<Value>, kwargs: Named, env: Environment)
    requires WellFormed(sig) && sig != [] && Accepts(sig, args, kwargs) && sig[0].kind.VarPositional?
    requires Receives(sig[1..], [], kwargs, env)
    requires Positions(sig[1..]) == 0
    ensures Receives(sig, args, kwargs, Extended(FirstEntry(sig, args, kwargs), env))
  {
    hide Accepts, WellFormed, Has, Names;
    LaterValues(sig, args, kwargs, env.named);
    assert args + [] == args && args[0..] == args;
    forall key ensures Names(sig, key) <==> Names(sig[1..], key) { NamesCons(sig, key); }
  }

  lemma ExtraReceived(sig: seq<Param>, args: seq<Value>, kwargs: Named, env: Environment)
    requires WellFormed(sig) && sig != [] && Accepts(sig, args, kwargs) && sig[0].kind.VarKeyword?
    requires Receives(sig[1..], [], map[], env)
    requires args == [] && sig[1..] == []
    ensures Receives(sig, args, kwargs, Extended(FirstEntry(sig, args, kwargs), env))
  {
    assert kwargs + env.extra == kwargs;
    forall key ensures !Names(sig, key) { NamesCons(sig, key); }
    hide Accepts, WellFormed, Has, Names;
  }

  lemma NamedBy(sig: seq<Param>, i: nat)
    requires i < |sig| && TakesOne(sig[i])
    ensures Names(sig, sig[i].name)
  {}

  /** For every call the language accepts, binding succeeds and finds exactly what the function receives. */
  lemma {:induction false} BindFindsEnvironment(sig: seq<Param>, args: seq<Value>, kwargs: Named)
    requires WellFormed(sig) && Accepts(sig, args, kwargs)
    ensures Bind(sig, args, kwargs).Some?
    ensures Receives(sig, args, kwargs, EnvironmentOf(Bind(sig, args, kwargs).value))
    decreases |sig|
  {
    if sig != [] {
      var (a, k) := Later(sig[0], args, kwargs);
      WellFormedTail(sig);
      AcceptsLater(sig, args, kwargs);
      BindFindsEnvironment(sig[1..], a, k);
      BindStep(sig, args, kwargs);
      hide *;
      var entries := Bind(sig[1..], a, k).value;
      ReceivesMore(sig, args, kwargs, EnvironmentOf(entries));
      EnvironmentOfCons(FirstEntry(sig, args, kwargs), entries);
      Prepended(FirstEntry(sig, args, kwargs), Bind(sig[1..], a, k));
    }
  }

  lemma Prepended(e: Entry, tail: Option<seq<Entry>>)
    requires tail.Some?
    ensures Prepend([e], tail) == Some([e] + tail.value)
  {}

  // ---------------------------------------------------------------- calls that do not bind

  /** The call gives no parameter two values and nothing that no parameter takes; it may leave some without one. */
  predicate BindsInPart(sig: seq<Param>, args: seq<Value>, kwargs: Named)
  {
    && (|args| <= Positions(sig) || Has(sig, VarPositional))
    && (forall i | 0 <= i < |sig| && i < |args| :: sig[i].kind.Positional? ==> sig[i].name !in kwargs)
    && (forall key | key in kwargs :: Names(sig, key) || Has(sig, VarKeyword))
  }

  lemma NoSpareKeys(sig: seq<Param>, args: seq<Value>, kwargs: Named)
    requires WellFormed(sig) && sig != []
    ensures sig[0].kind.VarPositional? ==> (BindsInPart(sig, args, kwargs) <==> BindsInPart(sig[1..], [], kwargs))
    ensures sig[0].kind.VarKeyword? ==> (BindsInPart(sig, args, kwargs) <==> args == [])
  {
    hide Names, Has;
    var later := sig[1..];
    WellFormedTail(sig);
    HasCons(sig, VarPositional);
    HasCons(sig, VarKeyword);
    forall key ensures Names(sig, key) <==> (TakesOne(sig[0]) && sig[0].name == key) || Names(later, key) {
      NamesCons(sig, key);
    }
    assert forall i | 0 < i < |sig| :: sig[i] == later[i - 1];
    if sig[0].kind.VarPositional? {
      assert forall i | 0 <= i < |sig| :: Rank(sig[0]) <= Rank(sig[i]);
    }
  }

  lemma OneTakes(sig: seq<Param>, args: seq<Value>, kwargs: Named)
    requires WellFormed(sig) && sig != [] && TakesOne(sig[0])
    ensures args != [] && (sig[0].kind.KeywordOnly? || sig[0].name in kwargs) ==> !BindsInPart(sig, args, kwargs)
    ensures args != [] && sig[0].kind.Positional? && sig[0].name !in kwargs ==>
              (BindsInPart(sig, args, kwargs) <==> BindsInPart(sig[1..], args[1..], kwargs))
    ensures args == [] ==> (BindsInPart(sig, args, kwargs) <==> BindsInPart(sig[1..], [], kwargs - {sig[0].name}))
  {
    hide Names, Has;
    var p, later := sig[0], sig[1..];
    WellFormedTail(sig);
    HasCons(sig, VarPositional);
    HasCons(sig, VarKeyword);
    forall key ensures Names(sig, key) <==> p.name == key || Names(later, key) {
      NamesCons(sig, key);
    }
    assert forall i | 0 < i < |sig| :: sig[i] == later[i - 1];
    assert forall i | 0 <= i < |later| :: later[i] == sig[i + 1];
  }

  /** Binding fails exactly when the call gives a parameter two values or something that none takes. */
  lemma {:induction false} BindsIff(sig: seq<Param>, args: seq<Value>, kwargs: Named)
    requires WellFormed(sig)
    ensures Bind(sig, args, kwargs).Some? <==> BindsInPart(sig, args, kwargs)
    decreases |sig|
  {
    if sig != [] {
      hide BindsInPart, WellFormed;
      var p, later := sig[0], sig[1..];
      WellFormedTail(sig);
      if TakesOne(p) {
        OneTakes(sig, args, kwargs);
        if p.name !in kwargs { assert kwargs - {p.name} == kwargs; }
        BindsIff(later, if args == [] then [] else args[1..], if args == [] then kwargs - {p.name} else kwargs);
      } else {
        NoSpareKeys(sig, args, kwargs);
        BindsIff(later, [], if p.kind.VarPositional? then kwargs else map[]);
        if p.kind.VarKeyword? { NothingBinds(); }
      }
    }
  }

  lemma NothingBinds()
    ensures BindsInPart([], [], map[])
  {}

  /**
   * Of a call whose function has no signature, or that does not bind to it, the policy sees the keywords as they are,
   * and the positions as a list under `_args` in place of a keyword of that name.
   */
  lemma UnboundIsShownAsIs(call: Invocation)
    requires call.signature.Some? ==>
               WellFormed(call.signature.value) && !BindsInPart(call.signature.value, call.args, call.kwargs)
    ensures forall key | key != "_args" ::
              && (key in Seen(call) <==> key in call.kwargs)
              && (key in call.kwargs ==> Seen(call)[key] == call.kwargs[key])
    ensures call.args == [] ==> Seen(call) == call.kwargs
    ensures call.args != [] ==> "_args" in Seen(call) && Seen(call)["_args"] == Arr(call.args)
  {
    hide Bind, BindsInPart, WellFormed;
    if call.signature.Some? { BindsIff(call.signature.value, call.args, call.kwargs); }
  }

  // ---------------------------------------------------------------- what the policy can read off

  predicate IsOne(e: Entry, name: string) { e.value.One? && e.name == name }

  /** Entries as binding leaves them: surplus positions once, surplus keywords last. */
  predicate Ordered(entries: seq<Entry>)
  {
    && (forall i | 0 <= i < |entries| - 1 :: !entries[i].value.Extra?)
    && (forall i, j | 0 <= i < j < |entries| :: !(entries[i].value.Many? && entries[j].value.Many?))
  }

  predicate NoneCalled(entries: seq<Entry>, name: string) { forall i | 0 <= i < |entries| :: !IsOne(entries[i], name) }

  predicate Declares(sig: seq<Param>, name: string) { exists i | 0 <= i < |sig| :: sig[i].name == name }

  predicate NoneMany(entries: seq<Entry>) { forall i | 0 <= i < |entries| :: !entries[i].value.Many? }

  lemma OrderedCons(e: Entry, entries: seq<Entry>, name: string)
    requires Ordered(entries) && NoneCalled(entries, name) && !IsOne(e, name)
    requires (e.value.Extra? ==> entries == []) && (e.value.Many? ==> NoneMany(entries))
    ensures Ordered([e] + entries) && NoneCalled([e] + entries, name)
    ensures NoneMany(entries) && !e.value.Many? ==> NoneMany([e] + entries)
  {
    var all := [e] + entries;
    assert all[0] == e && forall i | 0 < i < |all| :: all[i] == entries[i - 1];
  }

  /** The shape of a binding, one parameter at a time. */
  lemma {:induction false} BindOrdered(sig: seq<Param>, args: seq<Value>, kwargs: Named, name: string)
    requires WellFormed(sig) && !Declares(sig, name) && Bind(sig, args, kwargs).Some?
    ensures Ordered(Bind(sig, args, kwargs).value) && NoneCalled(Bind(sig, args, kwargs).value, name)
    ensures !Has(sig, VarPositional) ==> NoneMany(Bind(sig, args, kwargs).value)
    ensures sig == [] ==> Bind(sig, args, kwargs).value == []
    decreases |sig|
  {
    if sig != [] {
      var p, later := sig[0], sig[1..];
      WellFormedTail(sig);
      HasCons(sig, VarPositional);
      DeclaresLess(sig, name);
      hide Ordered, NoneCalled, NoneMany, WellFormed, Declares, Names, Has;
      if p.kind.VarPositional? {
        BindOrdered(later, [], kwargs, name);
        OrderedCons(Entry(p.name, Many(args)), Bind(later, [], kwargs).value, name);
      } else if p.kind.VarKeyword? {
        BindOrdered(later, [], map[], name);
        OrderedCons(Entry(p.name, Extra(kwargs)), Bind(later, [], map[]).value, name);
      } else if args != [] {
        BindOrdered(later, args[1..], kwargs, name);
        OrderedCons(Entry(p.name, One(args[0])), Bind(later, args[1..], kwargs).value, name);
      } else if p.name in kwargs {
        BindOrdered(later, [], kwargs - {p.name}, name);
        OrderedCons(Entry(p.name, One(kwargs[p.name])), Bind(later, [], kwargs - {p.name}).value, name);
      } else {
        BindOrdered(later, [], kwargs, name);
        var tail := Bind(later, [], kwargs).value;
        if p.fallback.Some? {
          OrderedCons(Entry(p.name, One(p.fallback.value)), tail, name);
        } else {
          assert [] + tail == tail;
        }
      }
    }
  }

  lemma DeclaresLess(sig: seq<Param>, name: string)
    requires sig != [] && !Declares(sig, name)
    ensures sig[0].name != name && !Declares(sig[1..], name)
  {
    assert forall i | 0 <= i < |sig[1..]| :: sig[1..][i] == sig[i + 1];
  }

  function Joined(a: Environment, b: Environment): Environment
  {
    Environment(a.named + b.named, a.rest + b.rest, a.extra + b.extra)
  }

  lemma ExtendedJoined(e: Entry, a: Environment, b: Environment)
    ensures Extended(e, Joined(a, b)) == Joined(Extended(e, a), b)
  {
    match e.value
    case One(v) => assert map[e.name := v] + (a.named + b.named) == (map[e.name := v] + a.named) + b.named;
    case Many(vs) => assert vs + (a.rest + b.rest) == (vs + a.rest) + b.rest;
    case Extra(kw) => assert kw + (a.extra + b.extra) == (kw + a.extra) + b.extra;
  }

  lemma NothingJoined(env: Environment)
    ensures Joined(EnvironmentOf([]), env) == env
  {
    assert map[] + env.named == env.named && [] + env.rest == env.rest && map[] + env.extra == env.extra;
  }

  lemma {:induction false} EnvironmentJoins(a: seq<Entry>, b: seq<Entry>)
    ensures EnvironmentOf(a + b) == Joined(EnvironmentOf(a), EnvironmentOf(b))
  {
    hide *;
    if a == [] {
      assert a + b == b;
      NothingJoined(EnvironmentOf(b));
    } else {
      assert a == [a[0]] + a[1..] && a + b == [a[0]] + (a[1..] + b);
      EnvironmentJoins(a[1..], b);
      EnvironmentOfCons(a[0], a[1..] + b);
      EnvironmentOfCons(a[0], a[1..]);
      ExtendedJoined(a[0], EnvironmentOf(a[1..]), EnvironmentOf(b));
    }
  }

  lemma {:induction false} NothingCollected(entries: seq<Entry>)
    ensures NoneMany(entries) ==> RestOf(entries) == []
    ensures (forall i | 0 <= i < |entries| :: !entries[i].value.Extra?) ==> ExtraOf(entries) == map[]
  {
    if entries != [] { NothingCollected(entries[1..]); }
  }

  function Fixed(env: Environment): Named
  {
    env.named + if env.rest == [] then map[] else map["_args" := Arr(env.rest)]
  }

  lemma EnvironmentOfOne(env: Environment, e: Entry)
    ensures Joined(env, EnvironmentOf([e]))
            == match e.value
               case One(v) => env.(named := env.named + map[e.name := v])
               case Many(vs) => env.(rest := env.rest + vs)
               case Extra(kw) => env.(extra := env.extra + kw)
  {
    EnvironmentOfCons(e, []);
    assert [e] + [] == [e];
    assert env.rest + [] == env.rest && env.named + map[] == env.named && env.extra + map[] == env.extra;
    assert e.value.One? ==> map[e.name := e.value.v] + map[] == map[e.name := e.value.v];
    assert e.value.Many? ==> e.value.vs + [] == e.value.vs;
    assert e.value.Extra? ==> e.value.kw + map[] == e.value.kw;
  }

  lemma OrderedSnoc(entries: seq<Entry>, e: Entry)
    requires Ordered(entries + [e])
    ensures Ordered(entries) && (forall i | 0 <= i < |entries| :: !entries[i].value.Extra?)
    ensures e.value.Many? ==> NoneMany(entries)
  {
    var all := entries + [e];
    assert forall i | 0 <= i < |entries| :: all[i] == entries[i];
    assert all[|entries|] == e;
  }

  /** What binding one more entry to an ordered list adds to the environment. */
  lemma EnvironmentSnoc(entries: seq<Entry>, e: Entry)
    requires Ordered(entries + [e])
    ensures var env, more := EnvironmentOf(entries), EnvironmentOf(entries + [e]);
            && Ordered(entries) && env.extra == map[] && (e.value.Many? ==> env.rest == [])
            && more == match e.value
                       case One(v) => env.(named := env.named + map[e.name := v])
                       case Many(vs) => env.(rest := env.rest + vs)
                       case Extra(kw) => env.(extra := env.extra + kw)
  {
    hide NamedOf, RestOf, ExtraOf, Ordered, NoneMany, Joined;
    OrderedSnoc(entries, e);
    NothingCollected(entries);
    EnvironmentJoins(entries, [e]);
    EnvironmentOfOne(EnvironmentOf(entries), e);
  }

  lemma {:induction false} CollectedIs(entries: seq<Entry>)
    requires Ordered(entries) && NoneCalled(entries, "_args")
    ensures Collected(entries) == Fixed(EnvironmentOf(entries)) + EnvironmentOf(entries).extra
  {
    if entries != [] {
      var n := |entries| - 1;
      var prefix, e := entries[..n], entries[n];
      assert entries == prefix + [e];
      assert !IsOne(e, "_args");
      hide EnvironmentOf, Fixed, Added, Ordered;
      EnvironmentSnoc(prefix, e);
      CollectedIs(prefix);
      AddedToFixed(EnvironmentOf(prefix), e);
    }
  }

  lemma AddedToFixed(env: Environment, e: Entry)
    requires env.extra == map[] && !IsOne(e, "_args") && (e.value.Many? ==> env.rest == [])
    ensures Added(Fixed(env) + env.extra, e)
            == match e.value
               case One(v) => Fixed(env.(named := env.named + map[e.name := v])) + env.extra
               case Many(vs) => Fixed(env.(rest := env.rest + vs)) + env.extra
               case Extra(kw) => Fixed(env) + (env.extra + kw)
  {
    if e.value.Many? { assert env.rest + e.value.vs == e.value.vs; }
  }

  /**
   * The arguments show the whole environment: each value under its name, and nothing that the function does not
   * receive.
   */
  ghost predicate ShowsAll(arguments: Named, env: Environment)
  {
    && (forall key | key in env.named :: key in arguments && arguments[key] == env.named[key])
    && (env.rest != [] ==> "_args" in arguments && arguments["_args"] == Arr(env.rest))
    && (forall key | key in env.extra :: key in arguments && arguments[key] == env.extra[key])
    && (forall key | key in arguments :: key in Fixed(env) || key in env.extra)
  }

  /** A caller's keyword `_args` that stands in the way of surplus positional arguments. */
  predicate HidesPositions(sig: seq<Param>, args: seq<Value>, kwargs: Named)
  {
    |args| > Positions(sig) && "_args" in kwargs && kwargs["_args"] != Arr(args[Positions(sig)..])
  }

  /**
   * The policy sees exactly what the base function of a nested partial receives, defaults, surplus positions and
   * surplus keywords included, if and only if no keyword `_args` of the caller hides the surplus positions.
   */
  lemma PolicySeesTheCall(tool: Tool, args: seq<Value>, kwargs: Named) returns (env: Environment)
    requires Base(tool).Some? && WellFormed(Base(tool).value) && !Declares(Base(tool).value, "_args")
    requires Accepts(Base(tool).value, BoundArgs(tool) + args, BoundKeywords(tool) + kwargs)
    ensures Receives(Base(tool).value, BoundArgs(tool) + args, BoundKeywords(tool) + kwargs, env)
    ensures ShowsAll(Seen(Calls(tool, args, kwargs)), env)
            <==> !HidesPositions(Base(tool).value, BoundArgs(tool) + args, BoundKeywords(tool) + kwargs)
  {
    var sig, a, k := Base(tool).value, BoundArgs(tool) + args, BoundKeywords(tool) + kwargs;
    CallsBase(tool, args, kwargs);
    BindFindsEnvironment(sig, a, k);
    BindOrdered(sig, a, k, "_args");
    var entries := Bind(sig, a, k).value;
    env := EnvironmentOf(entries);
    CollectedIs(entries);
    NotDeclared(sig, "_args");
    assert Seen(Calls(tool, args, kwargs)) == Fixed(env) + env.extra;
    hide Calls, Seen, Bind, WellFormed, Accepts, EnvironmentOf, Ordered, NoneCalled, Names, BoundArgs, BoundKeywords,
        Base;
    FixedShows(sig, a, k, env);
  }

  lemma NotDeclared(sig: seq<Param>, name: string)
    requires !Declares(sig, name)
    ensures !Names(sig, name)
  {}

  lemma FixedShows(sig: seq<Param>, args: seq<Value>, kwargs: Named, env: Environment)
    requires Receives(sig, args, kwargs, env) && !Names(sig, "_args")
    ensures ShowsAll(Fixed(env) + env.extra, env) <==> !HidesPositions(sig, args, kwargs)
  {
    hide Names, Positions;
    var arguments := Fixed(env) + env.extra;
    assert "_args" !in env.named;
    assert forall key | key in env.named :: key !in env.extra;
    if "_args" in env.extra {
      assert arguments["_args"] == kwargs["_args"];
    } else {
      assert "_args" !in kwargs;
    }
  }

  /**
   * A hidden position, concretely: `f(*rest, **more)` called with 1 and `_args="safe"` looks like a call with "safe"
   * only.
   */
  lemma HiddenPosition()
    ensures var sig := [Param("rest", VarPositional, None), Param("more", VarKeyword, None)];
            Seen(Calls(Function(Some(sig)), [Int(1)], map["_args" := Str("safe")])) == map["_args" := Str("safe")]
  {
    var sig := [Param("rest", VarPositional, None), Param("more", VarKeyword, None)];
    var kwargs := map["_args" := Str("safe")];
    var first, last := Entry("rest", Many([Int(1)])), Entry("more", Extra(kwargs));
    assert sig[1..][1..] == [] && Bind([], [], map[]) == Some([]);
    assert Bind(sig[1..], [], kwargs) == Some([last] + []);
    assert Bind(sig, [Int(1)], kwargs) == Some([first] + ([last] + []));
    var entries := [first] + ([last] + []);
    assert entries[..1] == [first] && [first][..0] == [];
    assert Collected([first]) == map["_args" := Arr([Int(1)])];
  }
}
