/** Two metadata containers: the running time range of a collection of
    traces, and the statistics of one pulse of a processing module with its
    derived runtime and rate. Times are integers for the time range and reals
    for the pulse statistics. */
module Header {
  import opened Wrappers

  /** The start and end of one trace-like object. */
  datatype Span = Span(start: int, end: int)

  /** Earliest and latest starttimes and endtimes seen; None until the first update. */
  datatype TimeRange = TimeRange(minStart: Option<int>, maxStart: Option<int>, minEnd: Option<int>, maxEnd: Option<int>)

  const Unset: TimeRange := TimeRange(None, None, None, None)

  /** The running minimum after seeing `t`. */
  function Lower(cur: Option<int>, t: int): (r: int)
    ensures r <= t
    ensures cur.Some? ==> r <= cur.value
    ensures r == t || (cur.Some? && r == cur.value)
  {
    if cur.None? || cur.value > t then t else cur.value
  }

  /** The running maximum after seeing `t`. */
  function Raise(cur: Option<int>, t: int): (r: int)
    ensures r >= t
    ensures cur.Some? ==> r >= cur.value
    ensures r == t || (cur.Some? && r == cur.value)
  {
    if cur.None? || cur.value < t then t else cur.value
  }

  /** Widen the range so that it holds the span's starttime and endtime. */
  function UpdateTimeRange(s: TimeRange, sp: Span): (r: TimeRange)
    ensures r.minStart.Some? && r.maxStart.Some? && r.minEnd.Some? && r.maxEnd.Some?
    ensures r.minStart.value <= sp.start <= r.maxStart.value
    ensures r.minEnd.value <= sp.end <= r.maxEnd.value
    ensures s.minStart.Some? ==> r.minStart.value <= s.minStart.value
    ensures s.maxStart.Some? ==> r.maxStart.value >= s.maxStart.value
    ensures s.minEnd.Some? ==> r.minEnd.value <= s.minEnd.value
    ensures s.maxEnd.Some? ==> r.maxEnd.value >= s.maxEnd.value
  {
    TimeRange(Some(Lower(s.minStart, sp.start)), Some(Raise(s.maxStart, sp.start)),
              Some(Lower(s.minEnd, sp.end)), Some(Raise(s.maxEnd, sp.end)))
  }

  /** The first update of an unset range takes the span's times as they are. */
  lemma FirstUpdate(sp: Span)
    ensures UpdateTimeRange(Unset, sp) == TimeRange(Some(sp.start), Some(sp.start), Some(sp.end), Some(sp.end))
  {
  }

  /** Updating again with the same span changes nothing. */
  lemma UpdateIdempotent(s: TimeRange, sp: Span)
    ensures UpdateTimeRange(UpdateTimeRange(s, sp), sp) == UpdateTimeRange(s, sp)
  {
  }

  /** Updates over a run of spans, in order. */
  function UpdateAll(s: TimeRange, sps: seq<Span>): TimeRange
    decreases |sps|
  {
    if |sps| == 0 then s else UpdateAll(UpdateTimeRange(s, sps[0]), sps[1..])
  }

  /** `m` is the least of the current value (if any) and the starttimes (or,
      with `ends`, the endtimes) of the spans. */
  ghost predicate IsLeast(m: int, cur: Option<int>, sps: seq<Span>, ends: bool)
  {
    && (cur.Some? ==> m <= cur.value)
    && (forall i :: 0 <= i < |sps| ==> m <= Time(sps[i], ends))
    && ((cur.Some? && m == cur.value) || exists i :: 0 <= i < |sps| && Time(sps[i], ends) == m)
  }

  ghost predicate IsGreatest(m: int, cur: Option<int>, sps: seq<Span>, ends: bool)
  {
    && (cur.Some? ==> m >= cur.value)
    && (forall i :: 0 <= i < |sps| ==> m >= Time(sps[i], ends))
    && ((cur.Some? && m == cur.value) || exists i :: 0 <= i < |sps| && Time(sps[i], ends) == m)
  }

  function Time(sp: Span, ends: bool): int
  {
    if ends then sp.end else sp.start
  }

  /** After a run of updates each field is the extremum of its earlier value
      and the corresponding times of all the spans. */
  lemma {:induction false} UpdateAllExtrema(s: TimeRange, sps: seq<Span>)
    requires |sps| > 0
    ensures var r := UpdateAll(s, sps);
            && r.minStart.Some? && IsLeast(r.minStart.value, s.minStart, sps, false)
            && r.maxStart.Some? && IsGreatest(r.maxStart.value, s.maxStart, sps, false)
            && r.minEnd.Some? && IsLeast(r.minEnd.value, s.minEnd, sps, true)
            && r.maxEnd.Some? && IsGreatest(r.maxEnd.value, s.maxEnd, sps, true)
    decreases |sps|
  {
    var s1 := UpdateTimeRange(s, sps[0]);
    var r := UpdateAll(s, sps);
    assert r == UpdateAll(s1, sps[1..]);
    if |sps| > 1 {
      UpdateAllExtrema(s1, sps[1..]);
      forall i | 1 <= i < |sps|
        ensures sps[i] == sps[1..][i - 1]
      {
      }
    } else {
      assert r == s1;
    }
  }

  /** Starting from the unset range, the outcome of a run of updates does not
      depend on the order of the spans. */
  lemma UpdateOrderIrrelevant(sps: seq<Span>, sps': seq<Span>)
    requires multiset(sps) == multiset(sps')
    ensures UpdateAll(Unset, sps) == UpdateAll(Unset, sps')
  {
    if |sps| == 0 {
      assert |sps'| == |multiset(sps')| == 0;
    } else {
      assert |sps'| == |multiset(sps')| == |sps|;
      UpdateAllExtrema(Unset, sps);
      UpdateAllExtrema(Unset, sps');
      var r := UpdateAll(Unset, sps);
      var r' := UpdateAll(Unset, sps');
      LeastUnique(sps, sps', false, r.minStart.value, r'.minStart.value);
      GreatestUnique(sps, sps', false, r.maxStart.value, r'.maxStart.value);
      LeastUnique(sps, sps', true, r.minEnd.value, r'.minEnd.value);
      GreatestUnique(sps, sps', true, r.maxEnd.value, r'.maxEnd.value);
    }
  }

  /** Each span of one run appears in the other. */
  lemma SameElements(sps: seq<Span>, sps': seq<Span>, i: int) returns (j: int)
    requires multiset(sps) == multiset(sps')
    requires 0 <= i < |sps|
    ensures 0 <= j < |sps'| && sps'[j] == sps[i]
  {
    assert sps[i] in multiset(sps);
    assert sps[i] in sps';
    j :| 0 <= j < |sps'| && sps'[j] == sps[i];
  }

  lemma LeastUnique(sps: seq<Span>, sps': seq<Span>, ends: bool, m: int, m': int)
    requires multiset(sps) == multiset(sps')
    requires IsLeast(m, None, sps, ends) && IsLeast(m', None, sps', ends)
    ensures m == m'
  {
    var i :| 0 <= i < |sps| && Time(sps[i], ends) == m;
    var j := SameElements(sps, sps', i);
    var i' :| 0 <= i' < |sps'| && Time(sps'[i'], ends) == m';
    var j' := SameElements(sps', sps, i');
  }

  lemma GreatestUnique(sps: seq<Span>, sps': seq<Span>, ends: bool, m: int, m': int)
    requires multiset(sps) == multiset(sps')
    requires IsGreatest(m, None, sps, ends) && IsGreatest(m', None, sps', ends)
    ensures m == m'
  {
    var i :| 0 <= i < |sps| && Time(sps[i], ends) == m;
    var j := SameElements(sps, sps', i);
    var i' :| 0 <= i' < |sps'| && Time(sps'[i'], ends) == m';
    var j' := SameElements(sps', sps, i');
  }

  /** A value stored under a key of the pulse statistics. */
  datatype Value = Num(x: real) | Text(s: string)

  datatype StatsError = ReadOnly(key: string) | NotNumeric(key: string)

  /** Statistics of one pulse; the keys without a derived relation live in `others`. */
  datatype PulseStats = PulseStats(starttime: real, endtime: real, niter: real,
                                   runtime: real, rate: real, others: map<string, Value>)

  const DefaultPulseStats: PulseStats :=
    PulseStats(0.0, 0.0, 0.0, 0.0, 0.0,
               map["modname" := Text(""), "stop" := Text(""),
                   "in0" := Num(0.0), "in1" := Num(0.0), "out0" := Num(0.0), "out1" := Num(0.0)])

  /** The derived fields agree with the ones they are computed from. */
  predicate Consistent(ps: PulseStats)
  {
    && ps.runtime == ps.endtime - ps.starttime
    && ps.rate == (if ps.runtime > 0.0 then ps.niter / ps.runtime else 0.0)
  }

  predicate IsRefreshKey(key: string)
  {
    key == "starttime" || key == "endtime" || key == "niter"
  }

  predicate IsReadOnly(key: string)
  {
    key == "runtime" || key == "pulse rate"
  }

  /** Setting a key. The three keys the derived fields depend on take a
      number and refresh runtime and rate; the derived fields themselves
      cannot be set; any other key is stored as given. */
  function SetItem(ps: PulseStats, key: string, v: Value): (r: Result<PulseStats, StatsError>)
    ensures IsReadOnly(key) ==> r == Failure(ReadOnly(key))
    ensures IsRefreshKey(key) && v.Text? ==> r == Failure(NotNumeric(key))
    ensures r.Success? && IsRefreshKey(key) ==> Consistent(r.value) && r.value.others == ps.others
    ensures r.Success? && key == "starttime" ==> r.value.starttime == v.x && r.value.endtime == ps.endtime && r.value.niter == ps.niter
    ensures r.Success? && key == "endtime" ==> r.value.endtime == v.x && r.value.starttime == ps.starttime && r.value.niter == ps.niter
    ensures r.Success? && key == "niter" ==> r.value.niter == v.x && r.value.starttime == ps.starttime && r.value.endtime == ps.endtime
    ensures r.Success? && !IsRefreshKey(key) ==> r.value == ps.(others := ps.others[key := v])
    ensures !IsReadOnly(key) && !(IsRefreshKey(key) && v.Text?) ==> r.Success?
  {
    if IsRefreshKey(key) then
      match v
      case Text(_) => Failure(NotNumeric(key))
      case Num(x) =>
        var ps1 :=
          if key == "starttime" then ps.(starttime := x)
          else if key == "endtime" then ps.(endtime := x)
          else ps.(niter := x);
        var runtime := ps1.endtime - ps1.starttime;
        Success(ps1.(runtime := runtime, rate := if runtime > 0.0 then ps1.niter / runtime else 0.0))
    else if IsReadOnly(key) then Failure(ReadOnly(key))
    else Success(ps.(others := ps.others[key := v]))
  }

  /** The rate is never negative when the iteration count is not. */
  lemma RateNonNegative(ps: PulseStats)
    requires Consistent(ps) && ps.niter >= 0.0
    ensures ps.rate >= 0.0
  {
  }

  /** Apply a run of settings, skipping the ones that are refused. */
  function SetAll(ps: PulseStats, items: seq<(string, Value)>): PulseStats
    decreases |items|
  {
    if |items| == 0 then ps
    else
      match SetItem(ps, items[0].0, items[0].1)
      case Success(next) => SetAll(next, items[1..])
      case Failure(_) => SetAll(ps, items[1..])
  }

  /** If the derived fields agree with the others, they still do after any
      run of settings. */
  lemma {:induction false} SetAllConsistent(ps: PulseStats, items: seq<(string, Value)>)
    requires Consistent(ps)
    ensures Consistent(SetAll(ps, items))
    decreases |items|
  {
    if |items| > 0 {
      match SetItem(ps, items[0].0, items[0].1)
      case Success(next) =>
        assert Consistent(next);
        SetAllConsistent(next, items[1..]);
      case Failure(_) =>
        SetAllConsistent(ps, items[1..]);
    }
  }

  lemma DefaultsConsistent()
    ensures Consistent(DefaultPulseStats)
  {
  }
}
