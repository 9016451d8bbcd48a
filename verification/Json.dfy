/** JSON values, as tool arguments, rule patterns and JSON-RPC messages carry them. */
module Json {

  datatype Option<+T> = None | Some(value: T)

  // Integers and floats are different constructors: 500 and 500.0 are different JSON values here.
  datatype Value =
    | Null
    | Bool(b: bool)
    | Int(n: int)
    | Float(r: real)
    | Str(s: string)
    | Arr(items: seq<Value>)
    | Obj(fields: map<string, Value>)

  /** The type-strict comparison of a rule's exact-value pattern with an argument. */
  predicate StrictEqual(actual: Value, expected: Value)
    decreases expected
  {
    match expected
    case Obj(want) =>
      && actual.Obj?
      && |actual.fields| == |want|
      && forall key | key in want :: key in actual.fields && StrictEqual(actual.fields[key], want[key])
    case Arr(want) =>
      && actual.Arr?
      && |actual.items| == |want|
      && forall i | 0 <= i < |want| :: StrictEqual(actual.items[i], want[i])
    case _ => actual == expected
  }

  lemma {:induction false} SubsetOfSameSize<T>(a: set<T>, b: set<T>)
    requires a <= b && |a| == |b|
    ensures a == b
  {
    assert b == a + (b - a);
    assert |b - a| == 0;
  }

  lemma SameFields(want: map<string, Value>, fields: map<string, Value>)
    requires |fields| == |want| && forall key | key in want :: key in fields && fields[key] == want[key]
    ensures fields == want
  {
    SubsetOfSameSize(want.Keys, fields.Keys);
  }

  /** The comparison decides exactly equality of JSON values, at every nesting depth. */
  lemma {:induction false} StrictEqualIsEquality(actual: Value, expected: Value)
    ensures StrictEqual(actual, expected) <==> actual == expected
    decreases expected
  {
    match expected
    case Obj(want) =>
      if actual.Obj? {
        forall key | key in want && key in actual.fields
          ensures StrictEqual(actual.fields[key], want[key]) <==> actual.fields[key] == want[key]
        {
          StrictEqualIsEquality(actual.fields[key], want[key]);
        }
        if StrictEqual(actual, expected) {
          SameFields(want, actual.fields);
        }
      }
    case Arr(want) =>
      if actual.Arr? && |actual.items| == |want| {
        forall i | 0 <= i < |want|
          ensures StrictEqual(actual.items[i], want[i]) <==> actual.items[i] == want[i]
        {
          StrictEqualIsEquality(actual.items[i], want[i]);
        }
      }
    case _ =>
  }

  const BOUND_DEPTH: nat := 64
  const PLACEHOLDER := Str("<deep>")

  /** A copy in which every subtree nested deeper than the bound is replaced by a placeholder. */
  function Bounded(value: Value, depth: nat): Value
    decreases value
  {
    if depth > BOUND_DEPTH then PLACEHOLDER
    else match value
      case Obj(fields) => Obj(map key | key in fields :: Bounded(fields[key], depth + 1))
      case Arr(items) => Arr(seq(|items|, i requires 0 <= i < |items| => Bounded(items[i], depth + 1)))
      case _ => value
  }

  /** No object or array sits at a level deeper than `levels`. */
  predicate NestedWithin(value: Value, levels: nat)
    decreases value
  {
    match value
    case Obj(fields) => levels > 0 && forall key | key in fields :: NestedWithin(fields[key], levels - 1)
    case Arr(items) => levels > 0 && forall i | 0 <= i < |items| :: NestedWithin(items[i], levels - 1)
    case _ => true
  }

  /**
   * Whatever the nesting of the input, the copy nests at most 65 containers deep, and copying it again changes nothing.
   */
  lemma {:induction false} BoundedIsShallow(value: Value, depth: nat)
    requires depth <= BOUND_DEPTH + 1
    ensures NestedWithin(Bounded(value, depth), BOUND_DEPTH + 1 - depth)
    ensures Bounded(Bounded(value, depth), depth) == Bounded(value, depth)
    decreases value
  {
    if depth <= BOUND_DEPTH {
      match value
      case Obj(fields) =>
        forall key | key in fields
          ensures NestedWithin(Bounded(fields[key], depth + 1), BOUND_DEPTH - depth)
          ensures Bounded(Bounded(fields[key], depth + 1), depth + 1) == Bounded(fields[key], depth + 1)
        {
          BoundedIsShallow(fields[key], depth + 1);
        }
      case Arr(items) =>
        forall i | 0 <= i < |items|
          ensures NestedWithin(Bounded(items[i], depth + 1), BOUND_DEPTH - depth)
          ensures Bounded(Bounded(items[i], depth + 1), depth + 1) == Bounded(items[i], depth + 1)
        {
          BoundedIsShallow(items[i], depth + 1);
        }
      case _ =>
    }
  }

  /** The two values agree in everything that stands in fewer than `levels` containers. */
  predicate SameDownTo(a: Value, b: Value, levels: nat)
    decreases a
  {
    if levels == 0 then true
    else match a
      case Obj(fields) =>
        b.Obj? && fields.Keys == b.fields.Keys
        && forall key | key in fields :: SameDownTo(fields[key], b.fields[key], levels - 1)
      case Arr(items) =>
        b.Arr? && |items| == |b.items|
        && forall i | 0 <= i < |items| :: SameDownTo(items[i], b.items[i], levels - 1)
      case _ => a == b
  }

  /** Two values have the same bounded copy exactly when they agree above the bound. */
  lemma {:induction false} BoundedIffSame(a: Value, b: Value, depth: nat)
    requires depth <= BOUND_DEPTH + 1
    ensures Bounded(a, depth) == Bounded(b, depth) <==> SameDownTo(a, b, BOUND_DEPTH + 1 - depth)
    decreases a, 1
  {
    if depth <= BOUND_DEPTH {
      match a
      case Obj(fields) => if b.Obj? { FieldsBounded(a, b, depth); }
      case Arr(items) => if b.Arr? { ItemsBounded(a, b, depth); }
      case _ =>
    }
  }

  lemma BoundedFields(a: Value, depth: nat)
    requires a.Obj? && depth <= BOUND_DEPTH
    ensures Bounded(a, depth).Obj? && Bounded(a, depth).fields.Keys == a.fields.Keys
    ensures forall key | key in a.fields :: Bounded(a, depth).fields[key] == Bounded(a.fields[key], depth + 1)
  {}

  lemma {:induction false} FieldsBounded(a: Value, b: Value, depth: nat)
    requires a.Obj? && b.Obj? && depth <= BOUND_DEPTH
    ensures Bounded(a, depth) == Bounded(b, depth) <==>
            && a.fields.Keys == b.fields.Keys
            && forall key | key in a.fields :: SameDownTo(a.fields[key], b.fields[key], BOUND_DEPTH - depth)
    decreases a, 0
  {
    hide Bounded, SameDownTo;
    BoundedFields(a, depth);
    BoundedFields(b, depth);
    forall key | key in a.fields && key in b.fields
      ensures Bounded(a, depth).fields[key] == Bounded(b, depth).fields[key]
              <==> SameDownTo(a.fields[key], b.fields[key], BOUND_DEPTH - depth)
    {
      BoundedIffSame(a.fields[key], b.fields[key], depth + 1);
    }
    if forall key | key in a.fields && key in b.fields ::
         Bounded(a, depth).fields[key] == Bounded(b, depth).fields[key]
    {
      assert a.fields.Keys == b.fields.Keys ==> Bounded(a, depth).fields == Bounded(b, depth).fields;
    }
  }

  lemma {:induction false} ItemsBounded(a: Value, b: Value, depth: nat)
    requires a.Arr? && b.Arr? && depth <= BOUND_DEPTH
    ensures Bounded(a, depth) == Bounded(b, depth) <==>
            && |a.items| == |b.items|
            && forall i | 0 <= i < |a.items| :: SameDownTo(a.items[i], b.items[i], BOUND_DEPTH - depth)
    decreases a, 0
  {
    var x, y := Bounded(a, depth).items, Bounded(b, depth).items;
    forall i | 0 <= i < |a.items| && i < |b.items|
      ensures x[i] == y[i] <==> SameDownTo(a.items[i], b.items[i], BOUND_DEPTH - depth)
    {
      BoundedIffSame(a.items[i], b.items[i], depth + 1);
    }
  }

  /** A value that is nowhere nested beyond the bound is its own bounded copy. */
  lemma {:induction false} BoundedKeepsShallow(value: Value, depth: nat)
    requires depth <= BOUND_DEPTH && NestedWithin(value, BOUND_DEPTH - depth)
    ensures Bounded(value, depth) == value
    decreases value
  {
    match value
    case Obj(fields) =>
      forall key | key in fields ensures Bounded(fields[key], depth + 1) == fields[key] {
        BoundedKeepsShallow(fields[key], depth + 1);
      }
    case Arr(items) =>
      forall i | 0 <= i < |items| ensures Bounded(items[i], depth + 1) == items[i] {
        BoundedKeepsShallow(items[i], depth + 1);
      }
    case _ =>
  }
}
