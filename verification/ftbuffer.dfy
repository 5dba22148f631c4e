/** The fold-weighted sliding buffer: a fixed-length window over the most
    recent samples of one channel, fed segment by segment.

    The window always ends at the latest endtime seen and reaches `maxlen`
    samples back, both ends included. An append to an empty buffer populates
    it; otherwise the segment is classified against the window it would give:
    far future (the buffer is rebuilt from the segment alone), far past (the
    append is rejected) or join (the segment is trimmed, the window shifted
    forward, and the segment merged in place). */
module FTBuffer {
  import opened Wrappers
  import opened FoldTrace

  /** Largest accepted buffer length. */
  const MaxBufferLength: int := 1200

  /** Buffer length and merge-method code a buffer gets when none are given. */
  const DefaultMaxlen: int := 60
  const DefaultMethodCode: int := 3

  datatype Error =
    | MaxlenOutOfBounds(maxlen: int)
    | MethodNotSupported(code: int)
    | AppendOnEmpty
    | Mismatch
    | Rewind(endtime: int, bufferEnd: int)
    | Stale(lag: int)

  datatype Buffer = Buffer(maxlen: nat, merge: Method, fill: real, empty: bool, trace: Trace)
  {
    function EndTime(): int
    {
      trace.EndTime()
    }

    function StartTime(): int
    {
      trace.start
    }
  }

  /** The trace of a buffer that was never populated: a default trace with no
      samples, whose id is the empty `network.station.location.channel` id "..."
      and whose rate is the default 1 Hz. Nothing reads them while `empty` holds. */
  const Unpopulated: Trace := Trace("...", 1.0, 0, [])

  /** The buffer invariant: an accepted length, and once populated, exactly one
      sample for every time in `[EndTime() - maxlen, EndTime()]`. */
  ghost predicate Valid(b: Buffer)
  {
    && 0 < b.maxlen <= MaxBufferLength
    && (!b.empty ==> |b.trace.samples| == b.maxlen + 1)
  }

  /** The in-place add method behind each accepted code. */
  function MethodFromCode(code: int): (r: Option<Method>)
    ensures r.Some? <==> code == 0 || code == 2 || code == 3
    ensures r == Some(Mask) <==> code == 0
    ensures r == Some(Largest) <==> code == 2
    ensures r == Some(Average) <==> code == 3
  {
    if code == 0 then Some(Mask)
    else if code == 2 then Some(Largest)
    else if code == 3 then Some(Average)
    else None
  }

  /** Construction: the length is checked first, then the method code. */
  function New(maxlen: int, code: int, fill: real): (r: Result<Buffer, Error>)
    ensures r.Success? <==> 0 < maxlen <= MaxBufferLength && MethodFromCode(code).Some?
    ensures !(0 < maxlen <= MaxBufferLength) ==> r == Failure(MaxlenOutOfBounds(maxlen))
    ensures 0 < maxlen <= MaxBufferLength && MethodFromCode(code).None? ==> r == Failure(MethodNotSupported(code))
    ensures r.Success? ==> Valid(r.value) && r.value.empty
    ensures r.Success? ==> r.value.maxlen == maxlen && r.value.fill == fill && Some(r.value.merge) == MethodFromCode(code)
  {
    if !(0 < maxlen <= MaxBufferLength) then Failure(MaxlenOutOfBounds(maxlen))
    else match MethodFromCode(code)
      case None => Failure(MethodNotSupported(code))
      case Some(m) => Success(Buffer(maxlen, m, fill, true, Unpopulated))
  }

  /** Checks a segment must pass before it may be joined: same channel
      identity and same sampling rate. */
  predicate Compatible(b: Buffer, seg: Trace)
  {
    seg.id == b.trace.id && seg.rate == b.trace.rate
  }

  /** Re-anchor the window's trailing edge at `endtime`, forward only. Only a
      populated buffer is shifted. */
  function Shift(b: Buffer, endtime: int): (r: Result<Buffer, Error>)
    requires !b.empty
    ensures r.Failure? <==> endtime < b.EndTime()
    ensures r.Failure? ==> r.error == Rewind(endtime, b.EndTime())
    ensures r.Success? ==> r.value == b.(trace := r.value.trace)
    ensures r.Success? ==> r.value.trace.id == b.trace.id && r.value.trace.rate == b.trace.rate
    ensures r.Success? ==> r.value.StartTime() == endtime - b.maxlen && r.value.EndTime() == endtime
    ensures r.Success? ==> forall t :: r.value.trace.Covers(t) <==> endtime - b.maxlen <= t <= endtime
    ensures r.Success? ==> forall t :: r.value.trace.Covers(t) ==> r.value.trace.At(t) == b.trace.Lookup(t, b.fill)
  {
    if endtime >= b.EndTime() then
      Success(b.(trace := TrimPad(b.trace, endtime - b.maxlen, endtime, b.fill)))
    else
      Failure(Rewind(endtime, b.EndTime()))
  }

  /** Populate (or re-populate) the buffer from one segment: the segment is cut
      or padded to the window ending at its own endtime, and its identity, data
      and folds become the buffer's. */
  function FirstAppend(b: Buffer, seg: Trace): (r: Buffer)
    ensures !r.empty && r.maxlen == b.maxlen && r.merge == b.merge && r.fill == b.fill
    ensures r.trace.id == seg.id && r.trace.rate == seg.rate
    ensures r.EndTime() == seg.EndTime() && r.StartTime() == seg.EndTime() - b.maxlen
    ensures |r.trace.samples| == b.maxlen + 1
    ensures forall t :: r.trace.Covers(t) ==> r.trace.At(t) == seg.Lookup(t, b.fill)
  {
    var tf := seg.EndTime();
    b.(trace := TrimPad(seg, tf - b.maxlen, tf, b.fill), empty := false)
  }

  /** Append to a populated buffer: far future rebuilds, far past rejects,
      everything else joins. */
  function SubsequentAppend(b: Buffer, seg: Trace): (r: Result<Buffer, Error>)
    ensures b.empty ==> r == Failure(AppendOnEmpty)
    ensures !b.empty && !Compatible(b, seg) ==> r == Failure(Mismatch)
    ensures r.Success? ==> r.value.maxlen == b.maxlen && r.value.merge == b.merge && r.value.fill == b.fill && !r.value.empty
  {
    if b.empty then Failure(AppendOnEmpty)
    else if !Compatible(b, seg) then Failure(Mismatch)
    else
      var eto := seg.EndTime();
      var ets := b.EndTime();
      var newEnd := Max(eto, ets);
      var newStart := newEnd - b.maxlen;
      if newStart > ets then
        Success(FirstAppend(b.(empty := true), seg))
      else if newStart > eto then
        Failure(Stale(newStart - eto))
      else
        var trimmed := Clip(seg, newStart, newEnd);
        match Shift(b, newEnd)
        case Failure(e) => Failure(e)
        case Success(shifted) => Success(shifted.(trace := Combine(shifted.trace, trimmed, b.merge, b.fill)))
  }

  function Append(b: Buffer, seg: Trace): (r: Result<Buffer, Error>)
    ensures b.empty ==> r == Success(FirstAppend(b, seg))
    ensures !b.empty ==> r == SubsequentAppend(b, seg)
    ensures r.Success? ==> !r.value.empty
  {
    if b.empty then Success(FirstAppend(b, seg))
    else SubsequentAppend(b, seg)
  }

  /** The default length and method are accepted, and give an empty averaging
      buffer with maxlen 60. */
  lemma DefaultsAccepted(fill: real)
    ensures New(DefaultMaxlen, DefaultMethodCode, fill).Success?
    ensures New(DefaultMaxlen, DefaultMethodCode, fill).value == Buffer(60, Average, fill, true, Unpopulated)
  {
  }

  /** A new buffer is empty, and its first append populates it from that
      segment alone, whatever it is. */
  lemma FirstAppendPopulates(maxlen: int, code: int, fill: real, seg: Trace)
    requires New(maxlen, code, fill).Success?
    ensures var b := New(maxlen, code, fill).value;
            && b.empty
            && Append(b, seg).Success?
            && Valid(Append(b, seg).value)
            && Append(b, seg).value == FirstAppend(b, seg)
  {
  }

  /** An append to a populated buffer fails, for a compatible segment, exactly
      when the segment ends before the window the buffer already holds, and
      then reports by how much. */
  lemma FarPastRejected(b: Buffer, seg: Trace)
    requires !b.empty && Compatible(b, seg)
    ensures Append(b, seg).Failure? <==> seg.EndTime() < b.EndTime() - b.maxlen
    ensures Append(b, seg).Failure? ==> Append(b, seg).error == Stale(b.EndTime() - b.maxlen - seg.EndTime())
  {
  }

  /** A segment whose own window starts after everything buffered discards the
      buffer: the outcome is that of appending it to a never-populated buffer. */
  lemma FarFutureResets(b: Buffer, seg: Trace)
    requires !b.empty && Compatible(b, seg)
    requires seg.EndTime() - b.maxlen > b.EndTime()
    ensures Append(b, seg) == Append(Buffer(b.maxlen, b.merge, b.fill, true, Unpopulated), seg)
  {
  }

  /** The join: the window moves to end at the later of the two endtimes and
      each of its positions is the merge of what the buffer held there (blank
      where it held nothing) with what the segment holds there. */
  lemma JoinMerges(b: Buffer, seg: Trace)
    requires !b.empty && Compatible(b, seg)
    requires b.EndTime() - b.maxlen <= seg.EndTime() <= b.EndTime() + b.maxlen
    ensures Append(b, seg).Success?
    ensures var r := Append(b, seg).value;
            && r.EndTime() == Max(seg.EndTime(), b.EndTime())
            && r.StartTime() == r.EndTime() - b.maxlen
            && r.trace.id == b.trace.id && r.trace.rate == b.trace.rate
            && forall t :: r.trace.Covers(t) ==>
                 r.trace.At(t) == MergeSample(b.merge, b.fill, b.trace.Lookup(t, b.fill), seg.Lookup(t, b.fill))
  {
  }

  /** Every successful append keeps the buffer invariant, and on a populated
      buffer never moves its endtime backwards. */
  lemma AppendKeepsValid(b: Buffer, seg: Trace)
    requires Valid(b)
    requires Append(b, seg).Success?
    ensures Valid(Append(b, seg).value)
    ensures !b.empty ==> Append(b, seg).value.EndTime() >= b.EndTime()
    ensures Append(b, seg).value.StartTime() == Append(b, seg).value.EndTime() - b.maxlen
  {
  }

  /** Where the buffer and the segment both say "no data means fill value",
      so does the buffer after any append. */
  lemma AppendKeepsFill(b: Buffer, seg: Trace)
    requires !b.empty ==> ZeroFoldIsFill(b.trace, b.fill)
    requires ZeroFoldIsFill(seg, b.fill)
    requires Append(b, seg).Success?
    ensures ZeroFoldIsFill(Append(b, seg).value.trace, b.fill)
  {
  }

  /** Two forward shifts in a row are one shift to the later endtime. */
  lemma ShiftTwice(b: Buffer, e1: int, e2: int)
    requires !b.empty
    requires b.EndTime() <= e1 <= e2
    ensures Shift(b, e1).Success? && Shift(Shift(b, e1).value, e2).Success?
    ensures Shift(Shift(b, e1).value, e2) == Shift(b, e2)
  {
    var once := Shift(b, e1).value;
    var twice := Shift(once, e2).value;
    var direct := Shift(b, e2).value;
    assert |twice.trace.samples| == |direct.trace.samples|;
    forall i | 0 <= i < |twice.trace.samples|
      ensures twice.trace.samples[i] == direct.trace.samples[i]
    {
      var t := e2 - b.maxlen + i;
      assert twice.trace.At(t) == twice.trace.samples[i];
      assert direct.trace.At(t) == direct.trace.samples[i];
    }
    assert twice.trace == direct.trace;
  }

  /** Feed a run of segments, dropping the ones that are rejected. */
  function Feed(b: Buffer, segs: seq<Trace>): Buffer
    decreases |segs|
  {
    if |segs| == 0 then b
    else
      match Append(b, segs[0])
      case Success(next) => Feed(next, segs[1..])
      case Failure(_) => Feed(b, segs[1..])
  }

  /** Over any run of appends the invariant holds and a populated buffer's
      endtime never decreases. */
  lemma {:induction false} FeedKeepsValid(b: Buffer, segs: seq<Trace>)
    requires Valid(b)
    ensures Valid(Feed(b, segs))
    ensures !b.empty ==> !Feed(b, segs).empty && Feed(b, segs).EndTime() >= b.EndTime()
    decreases |segs|
  {
    if |segs| > 0 {
      match Append(b, segs[0])
      case Success(next) =>
        AppendKeepsValid(b, segs[0]);
        FeedKeepsValid(next, segs[1..]);
      case Failure(_) =>
        FeedKeepsValid(b, segs[1..]);
    }
  }

  /** A worked run with a 10-sample window, averaging and fill 0: a first
      segment over times 0..4, a joining one over 3..9, then one ending at 25
      that lies in the far future. */
  lemma AveragingScenario()
    ensures var b0 := New(10, 3, 0.0).value;
            var s1 := Trace("XX.STA..HHZ", 1.0, 0, [Sample(1.0, 1), Sample(2.0, 1), Sample(3.0, 1), Sample(4.0, 1), Sample(5.0, 1)]);
            var s2 := Trace("XX.STA..HHZ", 1.0, 3, [Sample(10.0, 1), Sample(20.0, 1), Sample(30.0, 1), Sample(40.0, 1), Sample(50.0, 1), Sample(60.0, 1), Sample(70.0, 1)]);
            var s3 := Trace("XX.STA..HHZ", 1.0, 20, [Sample(8.0, 1), Sample(9.0, 1), Sample(8.0, 1), Sample(9.0, 1), Sample(8.0, 1), Sample(9.0, 1)]);
            var b1 := Append(b0, s1).value;
            && b1.StartTime() == -6 && b1.EndTime() == 4
            && b1.trace.At(-1) == Sample(0.0, 0) && b1.trace.At(0) == Sample(1.0, 1)
            && Append(b1, s2).Success?
            && var b2 := Append(b1, s2).value;
               && b2.StartTime() == -1 && b2.EndTime() == 9
               && b2.trace.At(-1) == Sample(0.0, 0) && b2.trace.At(2) == Sample(3.0, 1)
               && b2.trace.At(3) == Sample(7.0, 2) && b2.trace.At(4) == Sample(12.5, 2)
               && b2.trace.At(9) == Sample(70.0, 1)
               && Append(b2, s3).Success?
               && var b3 := Append(b2, s3).value;
                  && b3.StartTime() == 15 && b3.EndTime() == 25
                  && b3.trace.At(19) == Sample(0.0, 0) && b3.trace.At(20) == Sample(8.0, 1)
  {
  }
}
