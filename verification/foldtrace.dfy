/** The single-channel, fold-weighted trace on which the buffer is built.

    Time is an integer sample index: sample `i` of a trace starting at `start`
    sits at time `start + i`, so a trace's endtime is `start + |samples| - 1`
    (one before `start` when it holds no samples). Only the observable
    behaviour of the parent trace type is modelled here: reading a sample,
    trimming with padding, trimming without padding, and the in-place add. */
module FoldTrace {

  /** One sample: a value and its fold, the number of observations behind it;
      fold 0 means the position holds no data. */
  datatype Sample = Sample(value: real, fold: nat)

  /** The sample that padding writes: the fill value with fold 0. */
  function Blank(fill: real): Sample
  {
    Sample(fill, 0)
  }

  datatype Trace = Trace(id: string, rate: real, start: int, samples: seq<Sample>)
  {
    function EndTime(): int
    {
      start + |samples| - 1
    }

    predicate Covers(t: int)
    {
      start <= t <= EndTime()
    }

    function At(t: int): Sample
      requires Covers(t)
    {
      samples[t - start]
    }

    /** The sample at `t`, or a blank one where the trace holds no sample. */
    function Lookup(t: int, fill: real): Sample
    {
      if Covers(t) then At(t) else Blank(fill)
    }
  }

  function Max(a: int, b: int): int
  {
    if a < b then b else a
  }

  function Min(a: int, b: int): int
  {
    if a < b then a else b
  }

  /** Trim with padding: the trace re-cut to exactly `[t0, t1]`. Samples inside
      the old extent are kept as they were, everything else is blank, and
      nothing outside `[t0, t1]` survives. */
  function TrimPad(tr: Trace, t0: int, t1: int, fill: real): (r: Trace)
    requires t0 <= t1
    ensures r.id == tr.id && r.rate == tr.rate
    ensures r.start == t0 && r.EndTime() == t1
    ensures forall t :: r.Covers(t) <==> t0 <= t <= t1
    ensures forall t :: r.Covers(t) ==> r.At(t) == tr.Lookup(t, fill)
  {
    Trace(tr.id, tr.rate, t0, seq(t1 - t0 + 1, i requires 0 <= i <= t1 - t0 => tr.Lookup(t0 + i, fill)))
  }

  /** Trim without padding: only the samples of the trace that lie inside
      `[t0, t1]` remain, unchanged. */
  function Clip(tr: Trace, t0: int, t1: int): (r: Trace)
    ensures r.id == tr.id && r.rate == tr.rate
    ensures forall t :: r.Covers(t) <==> tr.Covers(t) && t0 <= t <= t1
    ensures forall t :: r.Covers(t) ==> r.At(t) == tr.At(t)
  {
    var lo := Max(tr.start, t0);
    var hi := Min(tr.EndTime(), t1);
    if hi < lo then Trace(tr.id, tr.rate, lo, [])
    else Trace(tr.id, tr.rate, lo, tr.samples[lo - tr.start .. hi - tr.start + 1])
  }

  /** The three in-place add methods the buffer may use: 0, 2 and 3. */
  datatype Method = Mask | Largest | Average

  /** The in-place add at one position, buffer sample `b` and segment sample `s`.
      A segment sample without data leaves the buffer alone, and one that meets
      an empty buffer position is adopted as it is; where both hold data, Mask
      discards the conflict, Largest keeps the larger value and Average the
      fold-weighted mean, both summing the folds. */
  function MergeSample(m: Method, fill: real, b: Sample, s: Sample): (r: Sample)
    ensures s.fold == 0 ==> r == b
    ensures s.fold > 0 && b.fold == 0 ==> r == s
    ensures s.fold > 0 && b.fold > 0 && m.Mask? ==> r == Blank(fill)
    ensures s.fold > 0 && !m.Mask? ==> r.fold == b.fold + s.fold
    ensures s.fold > 0 && b.fold > 0 && m.Largest? ==> r.value >= b.value && r.value >= s.value && (r.value == b.value || r.value == s.value)
    ensures !m.Mask? ==> r.fold >= b.fold
    ensures m.Average? ==> r.value * r.fold as real == b.value * b.fold as real + s.value * s.fold as real
  {
    if s.fold == 0 then b
    else if b.fold == 0 then s
    else match m
      case Mask => Blank(fill)
      case Largest => Sample(if b.value < s.value then s.value else b.value, b.fold + s.fold)
      case Average => Sample(WeightedMean(b, s), b.fold + s.fold)
  }

  /** Fold-weighted mean of two samples that together hold data. */
  function WeightedMean(b: Sample, s: Sample): (v: real)
    requires b.fold + s.fold > 0
    ensures v * (b.fold + s.fold) as real == b.value * b.fold as real + s.value * s.fold as real
    ensures b.value <= s.value ==> b.value <= v <= s.value
    ensures s.value <= b.value ==> s.value <= v <= b.value
  {
    var wb := b.fold as real;
    var ws := s.fold as real;
    var v := (b.value * wb + s.value * ws) / (wb + ws);
    assert (v - b.value) * (wb + ws) == (s.value - b.value) * ws;
    assert (s.value - v) * (wb + ws) == (s.value - b.value) * wb;
    SignOfProduct(v - b.value, wb + ws, (s.value - b.value) * ws);
    SignOfProduct(s.value - v, wb + ws, (s.value - b.value) * wb);
    assert (b.value - v) * (wb + ws) == (b.value - s.value) * ws;
    assert (v - s.value) * (wb + ws) == (b.value - s.value) * wb;
    SignOfProduct(b.value - v, wb + ws, (b.value - s.value) * ws);
    SignOfProduct(v - s.value, wb + ws, (b.value - s.value) * wb);
    NonNegativeProduct(b.value - s.value, ws);
    NonNegativeProduct(b.value - s.value, wb);
    NonNegativeProduct(s.value - b.value, ws);
    NonNegativeProduct(s.value - b.value, wb);
    v
  }

  lemma SignOfProduct(x: real, w: real, p: real)
    requires w > 0.0 && x * w == p
    ensures p >= 0.0 ==> x >= 0.0
  {
  }

  lemma NonNegativeProduct(x: real, w: real)
    requires w >= 0.0
    ensures x >= 0.0 ==> x * w >= 0.0
  {
  }

  /** The in-place add of a segment into a buffer trace: the buffer keeps its
      identity and extent, and every position is merged with the segment's
      sample there (a blank one where the segment holds none). */
  function Combine(buf: Trace, seg: Trace, m: Method, fill: real): (r: Trace)
    ensures r.id == buf.id && r.rate == buf.rate && r.start == buf.start
    ensures |r.samples| == |buf.samples|
    ensures forall t :: r.Covers(t) <==> buf.Covers(t)
    ensures forall t :: buf.Covers(t) ==> r.At(t) == MergeSample(m, fill, buf.At(t), seg.Lookup(t, fill))
  {
    buf.(samples := seq(|buf.samples|, i requires 0 <= i < |buf.samples| =>
                          MergeSample(m, fill, buf.samples[i], seg.Lookup(buf.start + i, fill))))
  }

  /** Every position without data holds the fill value. */
  ghost predicate ZeroFoldIsFill(tr: Trace, fill: real)
  {
    forall t :: tr.Covers(t) && tr.At(t).fold == 0 ==> tr.At(t).value == fill
  }

  /** The docstring's averaging formula, applied where the buffer has no data,
      gives exactly the segment's value: adoption is the same rule. */
  lemma AverageIntoEmptyAdopts(fill: real, s: Sample)
    requires s.fold > 0
    ensures WeightedMean(Blank(fill), s) == s.value
  {
  }

  /** Merging keeps "no data means fill value" at a position. */
  lemma MergeKeepsFill(m: Method, fill: real, b: Sample, s: Sample)
    requires b.fold == 0 ==> b.value == fill
    requires s.fold == 0 ==> s.value == fill
    ensures var r := MergeSample(m, fill, b, s); r.fold == 0 ==> r.value == fill
  {
  }

  lemma TrimPadKeepsFill(tr: Trace, t0: int, t1: int, fill: real)
    requires t0 <= t1
    requires ZeroFoldIsFill(tr, fill)
    ensures ZeroFoldIsFill(TrimPad(tr, t0, t1, fill), fill)
  {
  }

  lemma ClipKeepsFill(tr: Trace, t0: int, t1: int, fill: real)
    requires ZeroFoldIsFill(tr, fill)
    ensures ZeroFoldIsFill(Clip(tr, t0, t1), fill)
  {
  }

  lemma CombineKeepsFill(buf: Trace, seg: Trace, m: Method, fill: real)
    requires ZeroFoldIsFill(buf, fill) && ZeroFoldIsFill(seg, fill)
    ensures ZeroFoldIsFill(Combine(buf, seg, m, fill), fill)
  {
  }
}
