/** The append-only audit file: what any sequence of appends and interrupted writes leaves behind. */
module AuditLog {
  import opened Json
  import opened LineReaders

  /** The JSON text of one entry: never empty, and its newlines are escaped. */
  type EntryText = t: Bytes | t != [] && NEWLINE !in t witness [123]

  // What goes wrong with one append; `kept` bytes of an interrupted write still reach the file.
  datatype Fault = NoFault | BeforeWriting | DuringWrite(kept: nat)

  datatype Attempt = Attempt(text: EntryText, fault: Fault)

  datatype Outcome = Recorded | WriteError | RefusedTail

  predicate Torn(file: Bytes) { file != [] && file[|file| - 1] != NEWLINE }

  function Record(text: EntryText): Bytes { text + [NEWLINE] }

  function Reaching(a: Attempt): Bytes
  {
    match a.fault
    case NoFault => Record(a.text)
    case BeforeWriting => []
    case DuringWrite(kept) => if kept <= |a.text| then Record(a.text)[..kept] else Record(a.text)
  }

  function Appended(file: Bytes, a: Attempt): Bytes { if Torn(file) then file else file + Reaching(a) }

  function OutcomeOf(file: Bytes, a: Attempt): Outcome
  {
    if a.fault.BeforeWriting? then WriteError
    else if Torn(file) then RefusedTail
    else if a.fault.NoFault? then Recorded
    else WriteError
  }

  class JsonlAuditLog {
    var file: Bytes

    constructor ()
      ensures file == []
    {
      file := [];
    }

    // Runs under the log's lock.
    method Append(text: EntryText, fault: Fault) returns (outcome: Outcome)
      modifies this
      ensures file == Appended(old(file), Attempt(text, fault))
      ensures outcome == OutcomeOf(old(file), Attempt(text, fault))
      ensures outcome == Recorded ==> file == old(file) + Record(text)
      ensures outcome == RefusedTail ==> file == old(file)
    {
      if fault.BeforeWriting? {
        return WriteError;
      }
      if |file| > 0 {
        var last := file[|file| - 1];
        if last != NEWLINE {
          return RefusedTail;
        }
      }
      var line := text + [NEWLINE];
      if fault.DuringWrite? {
        file := file + if fault.kept <= |text| then line[..fault.kept] else line;
        return WriteError;
      }
      file := file + line;
      return Recorded;
    }
  }

  // ---------------------------------------------------------------- runs

  function Run(file: Bytes, attempts: seq<Attempt>): (Bytes, seq<Outcome>)
    decreases |attempts|
  {
    if attempts == [] then (file, [])
    else
      var (end, rest) := Run(Appended(file, attempts[0]), attempts[1..]);
      (end, [OutcomeOf(file, attempts[0])] + rest)
  }

  predicate Completes(file: Bytes, a: Attempt) { !Torn(file) && Reaching(a) == Record(a.text) }

  /** The records that reach the file whole, in order. */
  function Whole(file: Bytes, attempts: seq<Attempt>): seq<Bytes>
    decreases |attempts|
  {
    if attempts == [] then []
    else
      (if Completes(file, attempts[0]) then [Record(attempts[0].text)] else [])
      + Whole(Appended(file, attempts[0]), attempts[1..])
  }

  /** A record cut short: something of it is there, its newline is not. */
  ghost predicate IsTail(tail: Bytes, attempts: seq<Attempt>)
  {
    tail != [] && exists a :: a in attempts && tail <= a.text
  }

  /** Bytes once in the file stay where they are. */
  lemma {:induction false} OnlyGrows(file: Bytes, attempts: seq<Attempt>)
    ensures file <= Run(file, attempts).0
    ensures |Run(file, attempts).1| == |attempts|
    decreases |attempts|
  {
    if attempts != [] { OnlyGrows(Appended(file, attempts[0]), attempts[1..]); }
  }

  /** After an incomplete final record nothing is ever recorded again and the file is left as it is. */
  lemma {:induction false} TornIsFinal(file: Bytes, attempts: seq<Attempt>)
    requires Torn(file)
    ensures Run(file, attempts).0 == file && Whole(file, attempts) == []
    ensures forall o | o in Run(file, attempts).1 :: o != Recorded
    decreases |attempts|
  {
    if attempts != [] { TornIsFinal(file, attempts[1..]); }
  }

  lemma {:induction false} ConcatAppend(a: seq<Bytes>, b: seq<Bytes>)
    ensures Concat(a + b) == Concat(a) + Concat(b)
  {
    if a == [] {
      assert a + b == b;
    } else {
      assert (a + b)[1..] == a[1..] + b;
      ConcatAppend(a[1..], b);
    }
  }

  lemma ReachingCases(file: Bytes, a: Attempt)
    requires !Torn(file)
    ensures Completes(file, a) || Reaching(a) <= a.text
    ensures Reaching(a) != [] && !Completes(file, a) ==> Torn(Appended(file, a))
    ensures Completes(file, a) || Reaching(a) == [] ==> !Torn(Appended(file, a))
  {
    if Reaching(a) != [] && !Completes(file, a) {
      var last := Reaching(a)[|Reaching(a)| - 1];
      assert last == a.text[|Reaching(a)| - 1] && last in a.text;
    }
  }

  lemma RunStep(file: Bytes, attempts: seq<Attempt>)
    requires attempts != []
    ensures var a, next := attempts[0], Appended(file, attempts[0]);
            && Run(file, attempts).0 == Run(next, attempts[1..]).0
            && Whole(file, attempts) == (if Completes(file, a) then [Record(a.text)] else [])
                  + Whole(next, attempts[1..])
  {}

  lemma RunNothing(file: Bytes)
    ensures Run(file, []).0 == file + (Concat(Whole(file, [])) + [])
  {}

  /** A record cut short at once leaves nothing else behind. */
  lemma CutShort(file: Bytes, attempts: seq<Attempt>)
    requires attempts != [] && !Torn(file) && Reaching(attempts[0]) != [] && !Completes(file, attempts[0])
    ensures Run(file, attempts).0 == file + (Concat(Whole(file, attempts)) + Reaching(attempts[0]))
    ensures IsTail(Reaching(attempts[0]), attempts) && Torn(Run(file, attempts).0)
  {
    hide Reaching, Torn;
    var a := attempts[0];
    ReachingCases(file, a);
    TornIsFinal(Appended(file, a), attempts[1..]);
    assert a in attempts;
    assert Concat(Whole(file, attempts)) == [];
  }

  lemma RecordsJoin(file: Bytes, a: Attempt, whole: seq<Bytes>, tail: Bytes)
    requires !Torn(file) && (Completes(file, a) || Reaching(a) == [])
    ensures Appended(file, a) + (Concat(whole) + tail)
            == file + (Concat((if Completes(file, a) then [Record(a.text)] else []) + whole) + tail)
  {
    if Completes(file, a) {
      assert ([Record(a.text)] + whole)[1..] == whole;
    } else {
      assert [] + whole == whole;
    }
  }

  lemma TailOfRest(tail: Bytes, attempts: seq<Attempt>)
    requires attempts != [] && IsTail(tail, attempts[1..])
    ensures IsTail(tail, attempts)
  {
    var a :| a in attempts[1..] && tail <= a.text;
    assert a in attempts;
  }

  /** A run adds whole records and then, at most, one record cut short. */
  lemma {:induction false} RunAdds(file: Bytes, attempts: seq<Attempt>) returns (tail: Bytes)
    requires !Torn(file)
    ensures Run(file, attempts).0 == file + (Concat(Whole(file, attempts)) + tail)
    ensures tail == [] || IsTail(tail, attempts)
    ensures Torn(Run(file, attempts).0) <==> tail != []
    decreases |attempts|
  {
    hide *;
    tail := [];
    if attempts == [] {
      RunNothing(file);
      assert file + (Concat(Whole(file, [])) + []) == Run(file, attempts).0;
      NothingTorn(file);
    } else if Reaching(attempts[0]) != [] && !Completes(file, attempts[0]) {
      CutShort(file, attempts);
      tail := Reaching(attempts[0]);
    } else {
      ReachingCases(file, attempts[0]);
      RunStep(file, attempts);
      tail := RunAdds(Appended(file, attempts[0]), attempts[1..]);
      RecordsJoin(file, attempts[0], Whole(Appended(file, attempts[0]), attempts[1..]), tail);
      if tail != [] { TailOfRest(tail, attempts); }
    }
  }

  lemma NothingTorn(file: Bytes)
    ensures Run(file, []).0 == file
  {}

  lemma {:induction false} WholeAreRecords(file: Bytes, attempts: seq<Attempt>)
    ensures forall r | r in Whole(file, attempts) :: IsLine(r) && Terminated(r)
    decreases |attempts|
  {
    if attempts != [] {
      var r := Record(attempts[0].text);
      assert r[..|r| - 1] == attempts[0].text;
      WholeAreRecords(Appended(file, attempts[0]), attempts[1..]);
    }
  }

  lemma TailIsLine(tail: Bytes, attempts: seq<Attempt>)
    requires IsTail(tail, attempts)
    ensures IsLine(tail) && NEWLINE !in tail
  {
    var a :| a in attempts && tail <= a.text;
    assert forall i | 0 <= i < |tail| :: tail[i] == a.text[i] && a.text[i] in a.text;
  }

  /**
   * Splitting the file of any run at newlines gives back exactly the whole records, in order, and the cut one if there
   * is one.
   */
  lemma ReadBack(attempts: seq<Attempt>) returns (tail: Bytes)
    ensures Lines(Run([], attempts).0) == Whole([], attempts) + if tail == [] then [] else [tail]
    ensures tail == [] || IsTail(tail, attempts)
    ensures Torn(Run([], attempts).0) <==> tail != []
  {
    tail := RunAdds([], attempts);
    WholeAreRecords([], attempts);
    if tail != [] { TailIsLine(tail, attempts); }
    hide Run, Whole, Torn, IsTail, IsLine, Lines;
    var whole := Whole([], attempts);
    var end := if tail == [] then [] else [tail];
    assert forall i | 0 <= i < |whole| :: whole[i] in whole;
    LinesUnique(whole + end);
    ConcatAppend(whole, end);
    assert Concat(end) == tail;
    assert [] + (Concat(whole) + tail) == Concat(whole) + tail;
  }

  lemma {:induction false} RunSplits(file: Bytes, first: seq<Attempt>, second: seq<Attempt>)
    ensures var mid := Run(file, first).0;
            && Run(file, first + second).0 == Run(mid, second).0
            && Run(file, first + second).1 == Run(file, first).1 + Run(mid, second).1
            && Whole(file, first + second) == Whole(file, first) + Whole(mid, second)
    decreases |first|
  {
    hide *;
    if first == [] {
      NothingFirst(file, first, second);
    } else {
      var a, rest, next := first[0], first[1..], Appended(file, first[0]);
      var all := first + second;
      assert all[0] == a && all[1..] == rest + second;
      RunSplits(next, rest, second);
      RunStep(file, first);
      RunStep(file, all);
      RunAnswers(file, first);
      RunAnswers(file, all);
      var mid := Run(file, first).0;
      Associative([OutcomeOf(file, a)], Run(next, rest).1, Run(mid, second).1);
      Associative(if Completes(file, a) then [Record(a.text)] else [], Whole(next, rest), Whole(mid, second));
    }
  }

  lemma NothingFirst(file: Bytes, first: seq<Attempt>, second: seq<Attempt>)
    requires first == []
    ensures first + second == second && Run(file, first) == (file, [])
    ensures [] + Run(file, second).1 == Run(file, second).1
            && Whole(file, first) + Whole(file, second) == Whole(file, second)
  {}

  lemma Associative<T>(a: seq<T>, b: seq<T>, c: seq<T>)
    ensures a + (b + c) == (a + b) + c
  {}

  lemma RunAnswers(file: Bytes, attempts: seq<Attempt>)
    requires attempts != []
    ensures Run(file, attempts).1 == [OutcomeOf(file, attempts[0])] + Run(Appended(file, attempts[0]), attempts[1..]).1
  {}

  /**
   * An entry the caller was told is recorded is a line of the file at the end of the run, right behind the whole
   * records of the attempts before it, whatever is appended or interrupted afterwards.
   */
  lemma RecordedStays(attempts: seq<Attempt>, i: nat)
    requires i < |attempts| && |Run([], attempts).1| == |attempts| && Run([], attempts).1[i] == Recorded
    ensures var n := |Whole([], attempts[..i])|;
            n < |Lines(Run([], attempts).0)| && Lines(Run([], attempts).0)[n] == Record(attempts[i].text)
  {
    hide *;
    var before, after := attempts[..i], attempts[i..];
    assert attempts == before + after;
    RunSplits([], before, after);
    OnlyGrows([], before);
    var mid := Run([], before).0;
    FirstRecorded(mid, after);
    var tail := ReadBack(attempts);
    var n := |Whole([], before)|;
    assert Run([], attempts).1[i] == Run(mid, after).1[0];
    assert Whole([], attempts)[n] == Whole(mid, after)[0];
  }

  lemma FirstRecorded(file: Bytes, attempts: seq<Attempt>)
    requires attempts != []
    ensures Run(file, attempts).1 != []
    ensures Run(file, attempts).1[0] == Recorded ==>
              Whole(file, attempts) != [] && Whole(file, attempts)[0] == Record(attempts[0].text)
  {}

  // ---------------------------------------------------------------- redaction

  const REDACTED := Str("[REDACTED]")

  function Redact(value: Value): Value
  {
    match value
    case Obj(fields) => Obj(map key | key in fields :: Redact(fields[key]))
    case Arr(items) => Arr(seq(|items|, i requires 0 <= i < |items| => Redact(items[i])))
    case _ => REDACTED
  }

  /** The same nesting and the same keys, whatever the strings, numbers, booleans and nulls in them. */
  predicate SameShape(a: Value, b: Value)
    decreases a
  {
    match a
    case Obj(fields) => b.Obj? && fields.Keys == b.fields.Keys && forall key | key in fields ::
        SameShape(fields[key], b.fields[key])
    case Arr(items) => b.Arr? && |items| == |b.items| && forall i | 0 <= i < |items| :: SameShape(items[i], b.items[i])
    case _ => !b.Obj? && !b.Arr?
  }

  /** A redacted entry tells arguments apart by their shape, and by nothing else. */
  lemma {:induction false} RedactShowsShapeOnly(a: Value, b: Value)
    ensures Redact(a) == Redact(b) <==> SameShape(a, b)
    decreases a
  {
    match a
    case Obj(fields) =>
      if b.Obj? {
        var x, y := Redact(a).fields, Redact(b).fields;
        assert x.Keys == fields.Keys && y.Keys == b.fields.Keys;
        forall key | key in fields && key in b.fields
          ensures x[key] == y[key] <==> SameShape(fields[key], b.fields[key])
        {
          RedactShowsShapeOnly(fields[key], b.fields[key]);
        }
      }
    case Arr(items) =>
      if b.Arr? && |items| == |b.items| {
        var x, y := Redact(a).items, Redact(b).items;
        forall i | 0 <= i < |items|
          ensures x[i] == y[i] <==> SameShape(items[i], b.items[i])
        {
          RedactShowsShapeOnly(items[i], b.items[i]);
        }
      } else if b.Arr? {
        assert |Redact(a).items| != |Redact(b).items|;
      }
    case _ =>
  }

  predicate OnlyRedacted(value: Value)
  {
    match value
    case Obj(fields) => forall key | key in fields :: OnlyRedacted(fields[key])
    case Arr(items) => forall i | 0 <= i < |items| :: OnlyRedacted(items[i])
    case _ => value == Str("[REDACTED]")
  }

  /** A redacted value is the one value of the same shape with nothing in it but the mark. */
  lemma {:induction false} RedactIs(value: Value, w: Value)
    ensures w == Redact(value) <==> SameShape(value, w) && OnlyRedacted(w)
    decreases value, 1
  {
    match value
    case Obj(fields) => if w.Obj? { RedactFields(value, w); }
    case Arr(items) => if w.Arr? { RedactItems(value, w); }
    case _ =>
  }

  lemma {:induction false} RedactFields(value: Value, w: Value)
    requires value.Obj? && w.Obj?
    ensures w == Redact(value) <==> SameShape(value, w) && OnlyRedacted(w)
    decreases value, 0
  {
    var fields, redacted := value.fields, Redact(value).fields;
    assert redacted.Keys == fields.Keys;
    forall key | key in fields && key in w.fields
      ensures w.fields[key] == redacted[key] <==> SameShape(fields[key], w.fields[key]) && OnlyRedacted(w.fields[key])
    {
      RedactIs(fields[key], w.fields[key]);
    }
    if w.fields.Keys == fields.Keys && forall key | key in fields :: w.fields[key] == redacted[key] {
      assert w.fields == redacted;
    }
  }

  lemma {:induction false} RedactItems(value: Value, w: Value)
    requires value.Arr? && w.Arr?
    ensures w == Redact(value) <==> SameShape(value, w) && OnlyRedacted(w)
    decreases value, 0
  {
    var items, redacted := value.items, Redact(value).items;
    forall i | 0 <= i < |items| && i < |w.items|
      ensures w.items[i] == redacted[i] <==> SameShape(items[i], w.items[i]) && OnlyRedacted(w.items[i])
    {
      RedactIs(items[i], w.items[i]);
    }
    if |w.items| == |items| && forall i | 0 <= i < |items| :: w.items[i] == redacted[i] {
      assert w.items == redacted;
    }
  }
}
