/** A whole run of the lifecycle with one audit file: what the file says about every call. */
module AuditedRuns {
  import opened Json
  import opened Firewalls
  import Policies
  import opened LineReaders
  import AuditLog
  import FirewallRuns

  // A step of a call that writes nothing, or the write of the event a call is due to record.
  datatype Deed =
    | Act(id: nat, action: FirewallRuns.Action)
    | Write(id: nat, text: AuditLog.EntryText, fault: AuditLog.Fault)

  // A record that is in the file whole; `told` says whether the call was told that it is.
  datatype Entry = Entry(id: nat, event: Event, text: AuditLog.EntryText, told: bool)

  // `tail` is what an interrupted write left behind the entries.
  datatype World = World(fw: State, file: Bytes, entries: seq<Entry>, tail: Bytes)

  function Empty(cfg: Config): World { World(Initial(cfg), [], [], []) }

  predicate MayDo(w: World, d: Deed)
  {
    match d
    case Act(id, action) =>
      FirewallRuns.Enabled(w.fw, id, action) && (action.Audits? ==> action.outcome == UsageUnreadable)
    case Write(id, _, _) => id in w.fw.calls && MayAudit(w.fw.calls[id].phase)
  }

  function ActionOf(w: World, d: Deed): FirewallRuns.Action
  {
    match d
    case Act(_, action) => action
    case Write(_, text, fault) =>
      var ok := AuditLog.OutcomeOf(w.file, AuditLog.Attempt(text, fault)).Recorded?;
      FirewallRuns.Audits(WriteOutcome(ok))
  }

  function Do(cfg: Config, w: World, d: Deed): World
    requires MayDo(w, d)
  {
    var fw := FirewallRuns.Next(cfg, w.fw, d.id, ActionOf(w, d));
    match d
    case Act(_, _) => w.(fw := fw)
    case Write(id, text, fault) =>
      var a := AuditLog.Attempt(text, fault);
      var told := AuditLog.OutcomeOf(w.file, a).Recorded?;
      World(
        fw,
        AuditLog.Appended(w.file, a),
        if AuditLog.Completes(w.file, a) then w.entries + [Entry(id, AuditedEvent(w.fw.calls[id].phase), text, told)]
        else w.entries,
        if AuditLog.Torn(w.file) then w.tail else if AuditLog.Completes(w.file, a) then [] else AuditLog.Reaching(a))
  }

  function After(cfg: Config, w: World, deeds: seq<Deed>): Option<World>
    decreases |deeds|
  {
    if deeds == [] then Some(w)
    else if MayDo(w, deeds[0]) then After(cfg, Do(cfg, w, deeds[0]), deeds[1..])
    else None
  }

  function Records(entries: seq<Entry>): seq<Bytes>
  {
    seq(|entries|, i requires 0 <= i < |entries| => AuditLog.Record(entries[i].text))
  }

  /** The events of one call that it was told are recorded, in the order of their records. */
  function EventsOf(entries: seq<Entry>, id: nat): seq<Event>
  {
    if entries == [] then []
    else
      var last := entries[|entries| - 1];
      EventsOf(entries[..|entries| - 1], id) + if last.id == id && last.told then [last.event] else []
  }

  function Events(s: State, id: nat): seq<Event> { if id in s.calls then s.calls[id].events else [] }

  ghost predicate FileOk(w: World)
  {
    && w.file == Concat(Records(w.entries)) + w.tail
    && NEWLINE !in w.tail
    && (AuditLog.Torn(w.file) <==> w.tail != [])
  }

  ghost predicate TrailsOk(w: World) { forall id :: Events(w.fw, id) == EventsOf(w.entries, id) }

  // ---------------------------------------------------------------- one step

  lemma OneMoreEvent(entries: seq<Entry>, e: Entry, id: nat)
    ensures EventsOf(entries + [e], id) == EventsOf(entries, id) + if e.id == id && e.told then [e.event] else []
  {
    assert (entries + [e])[..|entries|] == entries;
  }

  /** Only a recorded event adds to the events of a call, and only to those of its own. */
  lemma EventsStep(cfg: Config, s: State, id: nat, a: FirewallRuns.Action, other: nat)
    requires FirewallRuns.Enabled(s, id, a) && cfg.auditing
    ensures Events(FirewallRuns.Next(cfg, s, id, a), other)
            == if other == id && a == FirewallRuns.Audits(Recorded) then
                 Events(s, id) + [AuditedEvent(s.calls[id].phase)]
               else Events(s, other)
  {
    hide Policies.Evaluate, AfterAudit;
  }

  lemma CompletesCases(file: Bytes, a: AuditLog.Attempt)
    ensures AuditLog.OutcomeOf(file, a).Recorded? ==> AuditLog.Completes(file, a)
    ensures AuditLog.Completes(file, a) ==>
              AuditLog.Appended(file, a) == file + AuditLog.Record(a.text) && !AuditLog.Torn(AuditLog.Appended(file, a))
    ensures !AuditLog.Torn(file) && !AuditLog.Completes(file, a) ==>
              var left := AuditLog.Reaching(a);
              && AuditLog.Appended(file, a) == file + left && NEWLINE !in left
              && (AuditLog.Torn(AuditLog.Appended(file, a)) <==> left != [])
  {
    if !AuditLog.Torn(file) { AuditLog.ReachingCases(file, a); }
  }

  lemma RecordsAppend(entries: seq<Entry>, e: Entry)
    ensures Concat(Records(entries + [e])) == Concat(Records(entries)) + AuditLog.Record(e.text)
  {
    var record := AuditLog.Record(e.text);
    assert Records(entries + [e]) == Records(entries) + [record];
    AuditLog.ConcatAppend(Records(entries), [record]);
    assert Concat([record]) == record + Concat([]) == record;
  }

  lemma WriteKeepsFile(cfg: Config, w: World, d: Deed)
    requires d.Write? && MayDo(w, d) && FileOk(w)
    ensures FileOk(Do(cfg, w, d))
  {
    hide AuditLog.Completes, AuditLog.Appended, AuditLog.Reaching, AuditLog.OutcomeOf, AuditLog.Record, Concat, Records,
         FirewallRuns.Next, AuditedEvent;
    var a := AuditLog.Attempt(d.text, d.fault);
    CompletesCases(w.file, a);
    if AuditLog.Torn(w.file) {
      assert AuditLog.Appended(w.file, a) == w.file && !AuditLog.Completes(w.file, a) by { TornStays(w.file, a); }
    } else if AuditLog.Completes(w.file, a) {
      RecordsAppend(w.entries, Do(cfg, w, d).entries[|w.entries|]);
    }
  }

  lemma TornStays(file: Bytes, a: AuditLog.Attempt)
    requires AuditLog.Torn(file)
    ensures AuditLog.Appended(file, a) == file && !AuditLog.Completes(file, a)
  {}

  lemma DoKeepsTrails(cfg: Config, w: World, d: Deed)
    requires cfg.auditing && MayDo(w, d) && TrailsOk(w)
    ensures TrailsOk(Do(cfg, w, d))
  {
    hide AuditLog.Completes, AuditLog.Appended, AuditLog.Reaching, AuditLog.OutcomeOf, FirewallRuns.Next, EventsOf,
         Events, AuditedEvent;
    if d.Write? { CompletesCases(w.file, AuditLog.Attempt(d.text, d.fault)); }
    var v := Do(cfg, w, d);
    forall id ensures Events(v.fw, id) == EventsOf(v.entries, id) {
      EventsStep(cfg, w.fw, d.id, ActionOf(w, d), id);
      if |v.entries| > |w.entries| { OneMoreEvent(w.entries, v.entries[|w.entries|], id); }
    }
  }

  // ---------------------------------------------------------------- whole runs

  lemma {:induction false} RunKeeps(cfg: Config, w: World, deeds: seq<Deed>)
    requires cfg.auditing && FileOk(w) && TrailsOk(w) && After(cfg, w, deeds).Some?
    ensures FileOk(After(cfg, w, deeds).value) && TrailsOk(After(cfg, w, deeds).value)
    decreases |deeds|
  {
    if deeds != [] {
      hide FileOk, TrailsOk, MayDo, Do;
      var d := deeds[0];
      if d.Write? { WriteKeepsFile(cfg, w, d); } else { ActKeepsFile(cfg, w, d); }
      DoKeepsTrails(cfg, w, d);
      RunKeeps(cfg, Do(cfg, w, d), deeds[1..]);
    }
  }

  lemma ActKeepsFile(cfg: Config, w: World, d: Deed)
    requires d.Act? && MayDo(w, d) && FileOk(w)
    ensures FileOk(Do(cfg, w, d))
  {
    hide FirewallRuns.Next, Concat, Records;
  }

  /** The calls move as in a run of the lifecycle: all that holds of those holds here. */
  lemma {:induction false} IsALifecycleRun(cfg: Config, w: World, deeds: seq<Deed>)
      returns (schedule: seq<(nat, FirewallRuns.Action)>)
    requires After(cfg, w, deeds).Some?
    ensures FirewallRuns.Run(cfg, w.fw, schedule) == Some(After(cfg, w, deeds).value.fw)
    decreases |deeds|
  {
    schedule := [];
    if deeds != [] {
      hide FirewallRuns.Next;
      var rest := IsALifecycleRun(cfg, Do(cfg, w, deeds[0]), deeds[1..]);
      schedule := [(deeds[0].id, ActionOf(w, deeds[0]))] + rest;
      assert schedule[1..] == rest;
    }
  }

  /**
   * With any number of concurrent callers, failures and interrupted writes, splitting the audit file of a run at
   * newlines gives exactly the records that were written whole, in order, and at most one cut one; and the events of
   * every call are exactly those records of its own that it was told of, in their order.
   */
  lemma FileTellsTheRun(cfg: Config, deeds: seq<Deed>)
    requires cfg.auditing && After(cfg, Empty(cfg), deeds).Some?
    ensures var w := After(cfg, Empty(cfg), deeds).value;
            && FirewallRuns.Reached(cfg, w.fw)
            && Lines(w.file) == Records(w.entries) + (if w.tail == [] then [] else [w.tail])
            && (forall id | id in w.fw.calls :: w.fw.calls[id].events == EventsOf(w.entries, id))
  {
    hide After;
    RunKeeps(cfg, Empty(cfg), deeds);
    var schedule := IsALifecycleRun(cfg, Empty(cfg), deeds);
    var w := After(cfg, Empty(cfg), deeds).value;
    assert forall id | id in w.fw.calls :: Events(w.fw, id) == w.fw.calls[id].events;
    hide FirewallRuns.Run, TrailsOk, EventsOf, AuditLog.Torn;
    FileSplits(w);
  }

  lemma FileSplits(w: World)
    requires FileOk(w)
    ensures Lines(w.file) == Records(w.entries) + if w.tail == [] then [] else [w.tail]
  {
    var records, end := Records(w.entries), if w.tail == [] then [] else [w.tail];
    forall i | 0 <= i < |records| ensures IsLine(records[i]) && Terminated(records[i]) {
      assert records[i][..|records[i]| - 1] == w.entries[i].text;
    }
    assert end != [] ==> IsLine(end[0]) by {
      assert forall i | 0 <= i < |w.tail| :: w.tail[i] in w.tail;
    }
    hide Lines, IsLine, AuditLog.Torn, Records;
    LinesUnique(records + end);
    AuditLog.ConcatAppend(records, end);
    assert Concat(end) == w.tail;
  }
}
