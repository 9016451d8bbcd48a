/** The child's output as the bytes of its stream: the reader's loop feeding the protocol. */
module ProxyStream {
  import opened Json
  import opened LineReaders
  import opened ProxyState
  import opened ProxyInvariant
  import opened ProxyRuns
  import opened ProxyEndings
  import opened ProxyRelay

  /** The lines of the child that the events of a run bring in. */
  function ChildLines(events: seq<Event>): seq<Line>
  {
    if events == [] then []
    else
      var last := events[|events| - 1];
      ChildLines(events[..|events| - 1]) + if last.ChildLine? then [last.line] else []
  }

  lemma {:induction false} OutputIsWhatWasRead(cfg: Config, states: seq<State>, events: seq<Event>, n: nat)
    requires IsRun(cfg, states, events) && n <= |events|
    ensures states[n].childOutput == ChildLines(events[..n])
  {
    hide Takes, Step, Inv, Initial;
    if n == 0 {
      NothingRead(cfg);
    } else {
      OutputIsWhatWasRead(cfg, states, events, n - 1);
      RunIsStep(cfg, states, events, n - 1);
      assert events[..n][..n - 1] == events[..n - 1];
      ReadStep(cfg, states[n - 1], events[n - 1], states[n]);
    }
  }

  lemma NothingRead(cfg: Config)
    ensures Initial(cfg).childOutput == []
  {}

  lemma ReadStep(cfg: Config, s: State, e: Event, t: State)
    requires Step(cfg, s, e, t)
    ensures t.childOutput == s.childOutput + if e.ChildLine? then [e.line] else []
  {
    hide RelayedOf, OthersStay, TargetMoves;
  }

  /** What one report of the reader is to the protocol; `decode` is the decoding of a line within the limit. */
  function LineOf(decode: Bytes -> Line, report: Report): Line
  {
    if report.oversized then Oversized else decode(report.line)
  }

  function Decoded(decode: Bytes -> Line, reports: seq<Report>): seq<Line>
  {
    seq(|reports|, i requires 0 <= i < |reports| => LineOf(decode, reports[i]))
  }

  /**
   * However the transport cuts the child's stream, what the protocol has read at any moment are the first lines of the
   * stream, one for one, oversized ones as such; and what it has shown of them are those that pass, in order.
   */
  lemma ChildOutputIsTheStream(
      cfg: Config, states: seq<State>, events: seq<Event>, decode: Bytes -> Line, stream: Bytes, sizes: Schedule,
      limit: nat)
    requires IsRun(cfg, states, events) && limit >= DRAIN - 1
    requires ChildLines(events) <= Decoded(decode, ReportsBy([], stream, sizes, limit))
    ensures var output := states[|events|].childOutput;
            && |output| <= |Lines(stream)|
            && (forall i | 0 <= i < |output| ::
                  output[i] == if |Lines(stream)[i]| > limit then Oversized else decode(Lines(stream)[i]))
            && RelayedOf(states[|events|].clientOutput) == Passing(cfg, output)
  {
    hide IsRun, ReportsBy, RelayedOf, Passing, Lines, ChildLines;
    OutputIsWhatWasRead(cfg, states, events, |events|);
    RelayedAreThePassing(cfg, states, events, |events|);
    assert events[..|events|] == events && [] + stream == stream;
    ReportsOfAnyCut([], stream, sizes, limit);
  }
}
