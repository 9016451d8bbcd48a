/** The bounded line readers, for every way the transport may cut the stream into chunks. */
module LineReaders {

  newtype Byte = b: int | 0 <= b < 256

  type Bytes = seq<Byte>

  const NEWLINE: Byte := 10

  const DRAIN: nat := 65536

  // ---------------------------------------------------------------- splitting at newlines

  /** The length of the first line, its newline included. */
  function LineLength(s: Bytes): (n: nat)
    ensures n <= |s| && (s != [] ==> n > 0)
  {
    if s == [] then 0 else if s[0] == NEWLINE then 1 else 1 + LineLength(s[1..])
  }

  function FirstLine(s: Bytes): Bytes { s[..LineLength(s)] }

  function AfterLine(s: Bytes): Bytes { s[LineLength(s)..] }

  function Lines(s: Bytes): seq<Bytes>
    decreases |s|
  {
    if s == [] then [] else [FirstLine(s)] + Lines(AfterLine(s))
  }

  function Concat(lines: seq<Bytes>): Bytes
  {
    if lines == [] then [] else lines[0] + Concat(lines[1..])
  }

  /** A line: newline-free up to an optional final newline, and not empty. */
  predicate IsLine(l: Bytes) { l != [] && NEWLINE !in l[..|l| - 1] }

  predicate Terminated(l: Bytes) { l != [] && l[|l| - 1] == NEWLINE }

  /** The first line ends at the first newline, or at the end of a stream without one. */
  lemma {:induction false} FirstLineEnds(s: Bytes)
    requires s != []
    ensures IsLine(FirstLine(s))
    ensures Terminated(FirstLine(s)) || (AfterLine(s) == [] && NEWLINE !in s)
  {
    if s[0] != NEWLINE && s[1..] != [] {
      FirstLineEnds(s[1..]);
      assert FirstLine(s) == [s[0]] + FirstLine(s[1..]);
      assert AfterLine(s) == AfterLine(s[1..]);
    }
  }

  lemma FirstLineProgress(s: Bytes)
    ensures if s == [] then FirstLine(s) == [] && AfterLine(s) == []
            else FirstLine(s) != [] && |AfterLine(s)| == |s| - |FirstLine(s)| && LineLength(s) == |FirstLine(s)|
  {}

  lemma {:induction false} LineLengthAt(prefix: Bytes, rest: Bytes)
    requires NEWLINE !in prefix
    ensures LineLength(prefix + rest) == |prefix| + LineLength(rest)
  {
    if prefix == [] {
      assert prefix + rest == rest;
    } else {
      assert (prefix + rest)[1..] == prefix[1..] + rest;
      LineLengthAt(prefix[1..], rest);
    }
  }

  lemma LineLengthOfLine(line: Bytes, rest: Bytes)
    requires IsLine(line) && (Terminated(line) || rest == [])
    ensures LineLength(line + rest) == |line|
  {
    var body := line[..|line| - 1];
    var last := [line[|line| - 1]];
    assert line + rest == body + (last + rest);
    LineLengthAt(body, last + rest);
  }

  /** Nothing is lost: the lines joined again are the stream. */
  lemma {:induction false} LinesJoin(s: Bytes)
    ensures Concat(Lines(s)) == s
    decreases |s|
  {
    if s != [] {
      LinesJoin(AfterLine(s));
      assert Lines(s)[1..] == Lines(AfterLine(s));
    }
  }

  /** Splitting is the only way to cut a stream into lines of which all but the last are terminated. */
  lemma {:induction false} LinesUnique(lines: seq<Bytes>)
    requires forall i | 0 <= i < |lines| :: IsLine(lines[i]) && (i + 1 < |lines| ==> Terminated(lines[i]))
    ensures Lines(Concat(lines)) == lines
  {
    if lines != [] {
      var rest := Concat(lines[1..]);
      assert forall i | 0 <= i < |lines[1..]| :: lines[1..][i] == lines[i + 1];
      LinesUnique(lines[1..]);
      LineLengthOfLine(lines[0], rest);
    }
  }

  // ---------------------------------------------------------------- the transport

  // How many bytes each read is to return; what no read can return is moved into its range.
  type Schedule = seq<nat>

  /** How much one read of at most `n` bytes returns: at least one byte, unless the stream has ended. */
  function Piece(unread: Bytes, sizes: Schedule, n: nat): (k: nat)
    requires n > 0
    ensures k <= |unread| && k <= n
    ensures k == 0 <==> unread == []
  {
    var most := if |unread| <= n then |unread| else n;
    if sizes == [] || sizes[0] > most then most
    else if sizes[0] == 0 && unread != [] then 1
    else sizes[0]
  }

  function Later(sizes: Schedule): Schedule { if sizes == [] then [] else sizes[1..] }

  /** A byte stream: what is still unread, and how the transport will cut it. */
  class Stream {
    var unread: Bytes
    var sizes: Schedule

    constructor (content: Bytes, sizes: Schedule)
      ensures unread == content && this.sizes == sizes
    {
      unread, this.sizes := content, sizes;
    }

    // Asynchronous read.
    method Read(n: nat) returns (chunk: Bytes)
      requires n > 0
      modifies this
      ensures var k := Piece(old(unread), old(sizes), n);
              chunk == old(unread)[..k] && unread == old(unread)[k..] && sizes == Later(old(sizes))
    {
      var k := Piece(unread, sizes, n);
      chunk := unread[..k];
      unread, sizes := unread[k..], Later(sizes);
    }

    // Blocking read of one line, cut after `n` bytes.
    method ReadLine(n: nat) returns (chunk: Bytes)
      requires n > 0
      modifies this
      ensures chunk + unread == old(unread)
      ensures |chunk| == if LineLength(old(unread)) <= n then LineLength(old(unread)) else n
    {
      var k := LineLength(unread);
      if k > n {
        k := n;
      }
      chunk := unread[..k];
      unread := unread[k..];
    }
  }

  class ByteArray {
    var bytes: Bytes

    constructor (bytes: Bytes)
      ensures this.bytes == bytes
    {
      this.bytes := bytes;
    }
  }

  function Find(s: Bytes): (i: int)
    ensures -1 <= i < |s|
    ensures i == -1 <==> NEWLINE !in s
    ensures i >= 0 ==> s[i] == NEWLINE && NEWLINE !in s[..i]
  {
    if s == [] then -1
    else if s[0] == NEWLINE then 0
    else
      var i := Find(s[1..]);
      assert i >= 0 ==> s[..i + 1] == [s[0]] + s[1..][..i];
      if i < 0 then -1 else i + 1
  }

  /** Reading a chunk with a newline in it completes the line `seen` so far. */
  lemma CutAtNewline(all: Bytes, seen: Bytes, chunk: Bytes, rest: Bytes)
    requires all == seen + (chunk + rest) && NEWLINE !in seen && NEWLINE in chunk
    ensures LineLength(all) == |seen| + Find(chunk) + 1
    ensures FirstLine(all) == seen + chunk[..Find(chunk) + 1]
    ensures AfterLine(all) == chunk[Find(chunk) + 1..] + rest
  {
    var k := Find(chunk);
    var line := seen + chunk[..k + 1];
    assert all == line + (chunk[k + 1..] + rest);
    assert line[..|line| - 1] == seen + chunk[..k];
    LineLengthOfLine(line, chunk[k + 1..] + rest);
  }

  /** A stream that ends without a newline ends with its last line. */
  lemma NoNewline(all: Bytes, seen: Bytes)
    requires all == seen + [] && NEWLINE !in seen
    ensures LineLength(all) == |seen| && FirstLine(all) == seen && AfterLine(all) == []
  {
    LineLengthAt(seen, []);
  }

  /** Line 106 looks at the whole buffer, so a buffered line is also refused for what follows it in a long buffer. */
  predicate Flagged(remainder: Bytes, unread: Bytes, limit: nat)
  {
    LineLength(remainder + unread) > limit || (NEWLINE in remainder && |remainder| > limit)
  }

  function Max(a: nat, b: nat): nat { if a >= b then a else b }

  // What one call returns, and what it leaves in its remainder and in the stream.
  datatype Taken = Taken(line: Bytes, oversized: bool, remainder: Bytes, unread: Bytes, sizes: Schedule)

  /** Draining an oversized line, chunk by chunk, up to its newline. */
  function Drained(unread: Bytes, sizes: Schedule): Taken
    decreases |unread|
  {
    var k := Piece(unread, sizes, DRAIN);
    if k == 0 then Taken([], true, [], [], Later(sizes))
    else
      var f := Find(unread[..k]);
      if f == -1 then Drained(unread[k..], Later(sizes))
      else Taken([], true, unread[..k][f + 1..], unread[k..], Later(sizes))
  }

  /** Filling a line that so far is `line`, chunk by chunk. */
  function Filled(line: Bytes, unread: Bytes, sizes: Schedule, limit: nat): Taken
    decreases |unread|
  {
    if |line| > limit then Drained(unread, sizes)
    else
      var k := Piece(unread, sizes, limit + 1 - |line|);
      if k == 0 then Taken(line, false, [], [], Later(sizes))
      else
        var f := Find(unread[..k]);
        if f == -1 then Filled(line + unread[..k], unread[k..], Later(sizes), limit)
        else
          var whole := line + unread[..k][..f + 1];
          Taken(if |whole| > limit then [] else whole, |whole| > limit, unread[..k][f + 1..], unread[k..], Later(sizes))
  }

  function TakeLine(remainder: Bytes, unread: Bytes, sizes: Schedule, limit: nat): Taken
  {
    var f := Find(remainder);
    if f == -1 then Filled(remainder, unread, sizes, limit)
    else if |remainder| > limit then Taken([], true, remainder[f + 1..], unread, sizes)
    else Taken(remainder[..f + 1], false, remainder[f + 1..], unread, sizes)
  }

  lemma {:induction false} DrainedTakesLine(all: Bytes, seen: Bytes, unread: Bytes, sizes: Schedule)
    requires NEWLINE !in seen && seen + unread == all
    ensures var t := Drained(unread, sizes);
            && t.oversized && t.line == []
            && t.remainder + t.unread == AfterLine(all)
            && |t.remainder| < DRAIN
            && LineLength(all) >= |seen|
    decreases |unread|
  {
    hide LineLength, FirstLine, AfterLine, Find;
    var k := Piece(unread, sizes, DRAIN);
    assert unread == unread[..k] + unread[k..];
    if k == 0 {
      NoNewline(all, seen);
    } else if Find(unread[..k]) == -1 {
      Reassociate(seen, unread[..k], unread[k..]);
      DrainedTakesLine(all, seen + unread[..k], unread[k..], Later(sizes));
    } else {
      CutAtNewline(all, seen, unread[..k], unread[k..]);
    }
  }

  lemma {:induction false} FilledTakesLine(all: Bytes, line: Bytes, unread: Bytes, sizes: Schedule, limit: nat)
    requires NEWLINE !in line && line + unread == all
    ensures var t := Filled(line, unread, sizes, limit);
            && t.remainder + t.unread == AfterLine(all)
            && (t.oversized <==> LineLength(all) > limit)
            && t.line == (if t.oversized then [] else FirstLine(all))
            && |t.remainder| <= Max(limit, DRAIN - 1)
    decreases |unread|
  {
    hide LineLength, FirstLine, AfterLine, Find, Drained;
    if |line| > limit {
      DrainedTakesLine(all, line, unread, sizes);
    } else {
      var k := Piece(unread, sizes, limit + 1 - |line|);
      assert unread == unread[..k] + unread[k..];
      if k == 0 {
        NoNewline(all, line);
      } else if Find(unread[..k]) == -1 {
        Reassociate(line, unread[..k], unread[k..]);
        FilledTakesLine(all, line + unread[..k], unread[k..], Later(sizes), limit);
      } else {
        CutAtNewline(all, line, unread[..k], unread[k..]);
      }
    }
  }

  /** Whatever the chunking, one call takes exactly one line and loses nothing of what follows. */
  lemma TakesOneLine(remainder: Bytes, unread: Bytes, sizes: Schedule, limit: nat)
    ensures var t, all := TakeLine(remainder, unread, sizes, limit), remainder + unread;
            && t.remainder + t.unread == AfterLine(all)
            && (t.oversized <==> Flagged(remainder, unread, limit))
            && t.line == (if t.oversized then [] else FirstLine(all))
            && |t.remainder| <= Max(|remainder|, Max(limit, DRAIN - 1))
  {
    hide LineLength, FirstLine, AfterLine, Find, Filled;
    var all := remainder + unread;
    if Find(remainder) == -1 {
      FilledTakesLine(all, remainder, unread, sizes, limit);
    } else {
      assert all == [] + (remainder + unread);
      CutAtNewline(all, [], remainder, unread);
      assert [] + remainder[..Find(remainder) + 1] == remainder[..Find(remainder) + 1];
    }
  }

  /** What reading one more chunk does, while filling a line and while draining one. */
  lemma FilledStep(line: Bytes, unread: Bytes, sizes: Schedule, limit: nat)
    ensures var over := |line| > limit;
            var k := Piece(unread, sizes, if over then DRAIN else limit + 1 - |line|);
            var chunk, rest, later, t := unread[..k], unread[k..], Later(sizes), Filled(line, unread, sizes, limit);
            var f := Find(chunk);
            if k == 0 then t == Taken(if over then [] else line, over, [], [], later)
            else if f == -1 then t == Filled(if over then line else line + chunk, rest, later, limit)
            else
              var whole := line + chunk[..f + 1];
              if over || |whole| > limit then t == Taken([], true, chunk[f + 1..], rest, later)
              else t == Taken(whole, false, chunk[f + 1..], rest, later)
  {
    hide Find;
  }

  /** One line, whatever the chunking: it consumes exactly that line and loses nothing of what follows. */
  method ReadChildLine(stream: Stream, limit: nat, remainder: ByteArray)
    returns (line: Bytes, oversized: bool, next: ByteArray)
    requires limit > 0
    modifies stream, remainder
    ensures fresh(next)
    ensures Taken(line, oversized, next.bytes, stream.unread, stream.sizes)
            == TakeLine(old(remainder.bytes), old(stream.unread), old(stream.sizes), limit)
    ensures next.bytes + stream.unread == AfterLine(old(remainder.bytes + stream.unread))
    ensures oversized <==> Flagged(old(remainder.bytes), old(stream.unread), limit)
    ensures line == if oversized then [] else FirstLine(old(remainder.bytes + stream.unread))
    ensures |next.bytes| <= Max(old(|remainder.bytes|), Max(limit, DRAIN - 1))
  {
    hide LineLength, FirstLine, AfterLine, Find, Piece, Flagged, Filled, Drained, Max;
    TakesOneLine(remainder.bytes, stream.unread, stream.sizes, limit);
    line := [];
    if remainder.bytes != [] {
      line := remainder.bytes;
      remainder.bytes := [];
      var k := Find(line);
      if k != -1 {
        next := new ByteArray(line[k + 1..]);
        if |line| > limit {
          return [], true, next;
        }
        return line[..k + 1], false, next;
      }
    }
    line, oversized, next := FillLine(stream, limit, line);
  }

  // The loop of the same call: chunks are read until one of them ends the line.
  method FillLine(stream: Stream, limit: nat, buffered: Bytes)
    returns (line: Bytes, oversized: bool, next: ByteArray)
    requires limit > 0
    modifies stream
    ensures fresh(next)
    ensures Taken(line, oversized, next.bytes, stream.unread, stream.sizes)
            == Filled(buffered, old(stream.unread), old(stream.sizes), limit)
  {
    hide Find, Piece, Filled, Drained;
    line := buffered;
    while true
      invariant Filled(line, stream.unread, stream.sizes, limit)
          == Filled(buffered, old(stream.unread), old(stream.sizes), limit)
      decreases |stream.unread|
    {
      FilledStep(line, stream.unread, stream.sizes, limit);
      if |line| > limit {
        var drain := stream.Read(DRAIN);
        if drain == [] {
          next := new ByteArray([]);
          return [], true, next;
        }
        var k := Find(drain);
        if k != -1 {
          next := new ByteArray(drain[k + 1..]);
          return [], true, next;
        }
        continue;
      }
      var chunk := stream.Read(limit + 1 - |line|);
      if chunk == [] {
        next := new ByteArray([]);
        return line, false, next;
      }
      var k := Find(chunk);
      if k != -1 {
        line := line + chunk[..k + 1];
        next := new ByteArray(chunk[k + 1..]);
        if |line| > limit {
          return [], true, next;
        }
        return line, false, next;
      }
      line := line + chunk;
    }
  }

  lemma Reassociate(a: Bytes, b: Bytes, c: Bytes)
    ensures a + (b + c) == (a + b) + c
  {}

  /** The blocking twin, on a stream that is read line by line. */
  method ReadClientLine(stream: Stream, limit: nat) returns (line: Bytes, oversized: bool)
    requires limit > 0
    modifies stream
    ensures stream.unread == AfterLine(old(stream.unread))
    ensures oversized <==> LineLength(old(stream.unread)) > limit
    ensures line == if oversized then [] else FirstLine(old(stream.unread))
  {
    ghost var all := stream.unread;
    line := stream.ReadLine(limit + 1);
    if |line| <= limit {
      assert all[..|line|] == line;
      return line, false;
    }
    ghost var taken := line;
    assert |line| == limit + 1;
    while line != [] && line[|line| - 1] != NEWLINE
      invariant taken + stream.unread == all
      invariant LineLength(all) > limit
      invariant |taken| <= LineLength(all)
      invariant line != [] && |line| <= |taken| && line == taken[|taken| - |line|..]
      decreases |stream.unread|
    {
      TakenHasNoNewline(all, taken);
      assert taken + stream.unread == all;
      LineLengthAt(taken, stream.unread);
      var chunk := stream.ReadLine(DRAIN);
      if chunk == [] {
        break;
      }
      taken := taken + chunk;
      line := chunk;
    }
    assert LineLength(all) == |taken| by { TakenIsLine(all, taken, stream.unread); }
    return [], true;
  }

  lemma TakenHasNoNewline(all: Bytes, taken: Bytes)
    requires taken <= all && 0 < |taken| <= LineLength(all) && taken[|taken| - 1] != NEWLINE
    ensures NEWLINE !in taken
  {
    FirstLineEnds(all);
    var line := FirstLine(all);
    assert taken == line[..|taken|];
    if |taken| < |line| {
      assert taken == line[..|line| - 1][..|taken|];
    }
  }

  lemma TakenIsLine(all: Bytes, taken: Bytes, unread: Bytes)
    requires taken + unread == all && 0 < |taken| <= LineLength(all)
    requires taken[|taken| - 1] == NEWLINE || unread == []
    ensures LineLength(all) == |taken|
  {
    FirstLineEnds(all);
    var line := FirstLine(all);
    assert taken == line[..|taken|];
    assert forall i | 0 <= i < |line| - 1 :: line[i] == line[..|line| - 1][i];
  }

  // ---------------------------------------------------------------- whole streams

  datatype Report = Report(line: Bytes, oversized: bool)

  function ReportOf(line: Bytes, limit: nat): Report
  {
    if |line| > limit then Report([], true) else Report(line, false)
  }

  /** What reading a stream to its end reports: every line in order, each oversized one as such. */
  function Reports(s: Bytes, limit: nat): seq<Report>
  {
    seq(|Lines(s)|, i requires 0 <= i < |Lines(s)| => ReportOf(Lines(s)[i], limit))
  }

  lemma ReportsStep(s: Bytes, limit: nat)
    requires s != []
    ensures Reports(s, limit) == [ReportOf(FirstLine(s), limit)] + Reports(AfterLine(s), limit)
  {}

  /** With the limit in force and a buffer no longer than it, a line is flagged exactly when it is too long. */
  lemma FlaggedIffTooLong(remainder: Bytes, unread: Bytes, limit: nat)
    requires |remainder| <= limit
    ensures Flagged(remainder, unread, limit) <==> |FirstLine(remainder + unread)| > limit
  {}

  lemma TakingShortens(remainder: Bytes, unread: Bytes, sizes: Schedule, limit: nat)
    requires limit > 0
    ensures var t, all := TakeLine(remainder, unread, sizes, limit), remainder + unread;
            if t.oversized || t.line != [] then all != [] && |t.remainder| + |t.unread| < |all|
            else all == [] && t.unread == []
  {
    hide TakeLine, Find;
    TakesOneLine(remainder, unread, sizes, limit);
    FirstLineProgress(remainder + unread);
    assert remainder + unread == [] ==> NEWLINE !in remainder;
  }

  /** What the child reader's loop reports of a stream that is cut as the schedule says. */
  function ReportsBy(remainder: Bytes, unread: Bytes, sizes: Schedule, limit: nat): seq<Report>
    requires limit > 0
    decreases |remainder| + |unread|
  {
    var t := TakeLine(remainder, unread, sizes, limit);
    TakingShortens(remainder, unread, sizes, limit);
    if !t.oversized && t.line == [] then []
    else [Report(t.line, t.oversized)] + ReportsBy(t.remainder, t.unread, t.sizes, limit)
  }

  /** With a limit the drain chunks cannot exceed the reports are those of the stream, however it is cut. */
  lemma {:induction false} ReportsOfAnyCut(remainder: Bytes, unread: Bytes, sizes: Schedule, limit: nat)
    requires limit >= DRAIN - 1 && |remainder| <= limit
    ensures ReportsBy(remainder, unread, sizes, limit) == Reports(remainder + unread, limit)
    decreases |remainder| + |unread|
  {
    hide TakeLine, Find, FirstLine, AfterLine, Reports;
    var t, all := TakeLine(remainder, unread, sizes, limit), remainder + unread;
    TakingShortens(remainder, unread, sizes, limit);
    TakesOneLine(remainder, unread, sizes, limit);
    if !t.oversized && t.line == [] {
      NothingReported(limit);
    } else {
      ReportsOfAnyCut(t.remainder, t.unread, t.sizes, limit);
      ReportsStep(all, limit);
      FlaggedIffTooLong(remainder, unread, limit);
    }
  }

  lemma NothingReported(limit: nat)
    ensures Reports([], limit) == []
  {}

  /** The child reader's loop over a whole stream. */
  method ReadChild(stream: Stream, limit: nat) returns (reports: seq<Report>)
    requires limit > 0
    modifies stream
    ensures reports == ReportsBy([], old(stream.unread), old(stream.sizes), limit)
    ensures limit >= DRAIN - 1 ==> reports == Reports(old(stream.unread), limit)
    ensures stream.unread == []
  {
    hide TakeLine, Flagged, FirstLine, AfterLine, Reports;
    ghost var whole := ReportsBy([], stream.unread, stream.sizes, limit);
    if limit >= DRAIN - 1 {
      ReportsOfAnyCut([], stream.unread, stream.sizes, limit);
      assert [] + stream.unread == stream.unread;
    }
    var remainder := new ByteArray([]);
    reports := [];
    while true
      invariant fresh(remainder)
      invariant reports + ReportsBy(remainder.bytes, stream.unread, stream.sizes, limit) == whole
      decreases |remainder.bytes| + |stream.unread|
    {
      TakingShortens(remainder.bytes, stream.unread, stream.sizes, limit);
      TakesOneLine(remainder.bytes, stream.unread, stream.sizes, limit);
      var line, oversized;
      line, oversized, remainder := ReadChildLine(stream, limit, remainder);
      if !oversized && line == [] {
        return;
      }
      ghost var rest := ReportsBy(remainder.bytes, stream.unread, stream.sizes, limit);
      assert reports + ([Report(line, oversized)] + rest) == reports + [Report(line, oversized)] + rest;
      reports := reports + [Report(line, oversized)];
    }
  }

  /** The client reader's loop: the same reports for the same stream, with any limit at all. */
  method ReadClient(stream: Stream, limit: nat) returns (reports: seq<Report>)
    requires limit > 0
    modifies stream
    ensures reports == Reports(old(stream.unread), limit)
    ensures stream.unread == []
  {
    hide FirstLine, AfterLine, LineLength, Reports;
    NothingReported(limit);
    ghost var all := stream.unread;
    reports := [];
    while true
      invariant reports + Reports(stream.unread, limit) == Reports(all, limit)
      decreases |stream.unread|
    {
      ghost var left := stream.unread;
      FirstLineProgress(left);
      var line, oversized := ReadClientLine(stream, limit);
      if !oversized && line == [] {
        return;
      }
      ReportsStep(left, limit);
      assert reports + ([Report(line, oversized)] + Reports(AfterLine(left), limit))
          == reports + [Report(line, oversized)] + Reports(AfterLine(left), limit);
      reports := reports + [Report(line, oversized)];
    }
  }

  /** An oversized line of zeros, an empty line, and zeros up to the limit. */
  function Misread(limit: nat): Bytes { Zeros(limit + 1) + ([NEWLINE] + ([NEWLINE] + Zeros(limit))) }

  function Zeros(n: nat): Bytes { seq(n, _ => 0) }

  /**
   * Below that limit the drain of one line can leave a remainder longer than the limit, and the short line in it is
   * refused.
   */
  lemma SmallLimitMisreports(limit: nat)
    requires 0 < limit < DRAIN - 1
    ensures ReportsBy([], Misread(limit), [], limit) != Reports(Misread(limit), limit)
  {
    hide Lines;
    var all, left := Misread(limit), [NEWLINE] + Zeros(limit);
    SecondOfMisread(limit);
    assert TakeLine([], all, [], limit) == Taken([], true, left, [], []) by { DrainOfMisread(limit); }
    TakingShortens([], all, [], limit);
    assert TakeLine(left, [], [], limit).oversized by { assert left[0] == NEWLINE; }
    TakingShortens(left, [], [], limit);
    assert ReportsBy([], all, [], limit) == [Report([], true)] + ReportsBy(left, [], [], limit);
    assert ReportsBy(left, [], [], limit)[0].oversized;
    assert ReportsBy([], all, [], limit)[1].oversized;
  }

  lemma DrainOfMisread(limit: nat)
    requires 0 < limit < DRAIN - 1
    ensures TakeLine([], Misread(limit), [], limit) == Taken([], true, [NEWLINE] + Zeros(limit), [], [])
  {
    var head, tail := Zeros(limit + 1), [NEWLINE] + ([NEWLINE] + Zeros(limit));
    var all := head + tail;
    assert Piece(all, [], limit + 1) == limit + 1 && all[..limit + 1] == head && all[limit + 1..] == tail;
    assert NEWLINE !in head;
    assert Filled([], all, [], limit) == Filled([] + head, tail, [], limit);
    assert |[] + head| == limit + 1;
    assert Piece(tail, [], DRAIN) == |tail| && tail[..|tail|] == tail && tail[|tail|..] == [];
    assert tail[0] == NEWLINE && tail[1..] == [NEWLINE] + Zeros(limit);
  }

  lemma SecondOfMisread(limit: nat)
    requires limit > 0
    ensures |Reports(Misread(limit), limit)| > 1 && !Reports(Misread(limit), limit)[1].oversized
  {
    var tail := [NEWLINE] + Zeros(limit);
    var head := Zeros(limit + 1) + [NEWLINE];
    assert Misread(limit) == head + tail;
    assert head[..|head| - 1] == Zeros(limit + 1);
    LineLengthOfLine(head, tail);
    assert FirstLine(head + tail) == head && AfterLine(head + tail) == tail;
    assert tail[0] == NEWLINE && FirstLine(tail) == [NEWLINE];
    hide Reports, FirstLine, AfterLine;
    ReportsStep(head + tail, limit);
    ReportsStep(tail, limit);
    assert Reports(Misread(limit), limit)[1] == ReportOf([NEWLINE], limit);
  }

  /**
   * The limit from which on the child reader reports every stream as it is, however the transport cuts it, is 65535.
   */
  lemma FaithfulFromDrainOn(limit: nat)
    requires limit > 0
    ensures (forall content, sizes :: ReportsBy([], content, sizes, limit) == Reports(content, limit))
            <==> limit >= DRAIN - 1
  {
    hide ReportsBy, Reports;
    if limit >= DRAIN - 1 {
      forall content, sizes ensures ReportsBy([], content, sizes, limit) == Reports(content, limit) {
        ReportsOfAnyCut([], content, sizes, limit);
        assert [] + content == content;
      }
    } else {
      SmallLimitMisreports(limit);
      var content, sizes: Schedule := Misread(limit), [];
      assert ReportsBy([], content, sizes, limit) != Reports(content, limit);
    }
  }
}
