/** Two pure pieces of the pick-feature utilities: the mapping of a value to a
    quality grade by bin upper bounds, and the filter that keeps the expanded
    triggers nesting a main trigger. */
module FeatureExtraction {

  /** A grade bin's upper bound: a real number or positive infinity. */
  datatype Bound = Finite(v: real) | Infinity

  predicate AtMost(x: real, g: Bound)
  {
    g.Infinity? || x <= g.v
  }

  /** The bounds as the mapping uses them: infinity is appended when the last
      bound is finite, so every value falls in some bin. */
  function WithInfinity(gradeMax: seq<Bound>): (r: seq<Bound>)
    requires |gradeMax| > 0
    ensures |gradeMax| <= |r| <= |gradeMax| + 1
    ensures r[|r| - 1] == Infinity
    ensures r[..|gradeMax|] == gradeMax
    ensures |r| == |gradeMax| + 1 <==> gradeMax[|gradeMax| - 1].Finite?
    ensures gradeMax[|gradeMax| - 1].Infinity? ==> r == gradeMax
  {
    if gradeMax[|gradeMax| - 1].Finite? then gradeMax + [Infinity] else gradeMax
  }

  /** Reference definition: the index of the first bound at or above `x`,
      counted from `from`, or `|bounds|` when there is none. */
  function FirstAtMost(x: real, bounds: seq<Bound>, from: nat): (i: nat)
    requires from <= |bounds|
    ensures from <= i <= |bounds|
    decreases |bounds| - from
  {
    if from == |bounds| then from
    else if AtMost(x, bounds[from]) then from
    else FirstAtMost(x, bounds, from + 1)
  }

  /** The grade of `x`: the first bin whose upper bound it does not exceed. */
  function Grade(x: real, gradeMax: seq<Bound>): nat
    requires |gradeMax| > 0
  {
    FirstAtMost(x, WithInfinity(gradeMax), 0)
  }

  lemma {:induction false} FirstAtMostIsFirst(x: real, bounds: seq<Bound>, from: nat)
    requires from <= |bounds|
    ensures var i := FirstAtMost(x, bounds, from);
            && (i < |bounds| ==> AtMost(x, bounds[i]))
            && (forall j :: from <= j < i ==> !AtMost(x, bounds[j]))
    decreases |bounds| - from
  {
    if from < |bounds| && !AtMost(x, bounds[from]) {
      FirstAtMostIsFirst(x, bounds, from + 1);
    }
  }

  /** The grade is a valid bin index, the value lies at or below that bin's
      bound, and above the bounds of every earlier bin. */
  lemma GradeIsBin(x: real, gradeMax: seq<Bound>)
    requires |gradeMax| > 0
    ensures var bounds := WithInfinity(gradeMax);
            var g := Grade(x, gradeMax);
            && g < |bounds|
            && AtMost(x, bounds[g])
            && forall j :: 0 <= j < g ==> !AtMost(x, bounds[j])
  {
    var bounds := WithInfinity(gradeMax);
    FirstAtMostIsFirst(x, bounds, 0);
  }

  /** A larger value never gets a smaller grade, whatever the bounds. */
  lemma GradeMonotone(x: real, y: real, gradeMax: seq<Bound>)
    requires |gradeMax| > 0
    requires x <= y
    ensures Grade(x, gradeMax) <= Grade(y, gradeMax)
  {
    var bounds := WithInfinity(gradeMax);
    GradeIsBin(x, gradeMax);
    GradeIsBin(y, gradeMax);
    var gy := Grade(y, gradeMax);
    assert AtMost(x, bounds[gy]);
  }

  /** The default bin upper bounds of the mapping, the ones its only caller uses. */
  const DefaultGradeMax: seq<Bound> := [Finite(0.02), Finite(0.03), Finite(0.04), Finite(0.05), Infinity]

  /** With the default bounds, already ending in infinity, there are five
      grades: a value at most 0.02 gets 0, one in (0.02, 0.03] gets 1, and so on,
      and any value above 0.05 gets 4. */
  lemma DefaultGrades(x: real)
    ensures WithInfinity(DefaultGradeMax) == DefaultGradeMax
    ensures Grade(x, DefaultGradeMax) < 5
    ensures x <= 0.02 ==> Grade(x, DefaultGradeMax) == 0
    ensures 0.02 < x <= 0.03 ==> Grade(x, DefaultGradeMax) == 1
    ensures 0.03 < x <= 0.04 ==> Grade(x, DefaultGradeMax) == 2
    ensures 0.04 < x <= 0.05 ==> Grade(x, DefaultGradeMax) == 3
    ensures 0.05 < x ==> Grade(x, DefaultGradeMax) == 4
  {
    GradeIsBin(x, DefaultGradeMax);
  }

  /** The mapping as `_pick_quality_mapping` scans the bounds: it stops at the
      first one not below `x`. */
  method PickQualityMapping(x: real, gradeMax: seq<Bound>) returns (grade: nat)
    requires |gradeMax| > 0
    ensures grade < |WithInfinity(gradeMax)|
    ensures AtMost(x, WithInfinity(gradeMax)[grade])
    ensures forall j :: 0 <= j < grade ==> !AtMost(x, WithInfinity(gradeMax)[j])
    ensures grade == Grade(x, gradeMax)
  {
    var bounds := WithInfinity(gradeMax);
    var i := 0;
    while i < |bounds| && !AtMost(x, bounds[i])
      invariant 0 <= i <= |bounds|
      invariant forall j :: 0 <= j < i ==> !AtMost(x, bounds[j])
      invariant FirstAtMost(x, bounds, i) == FirstAtMost(x, bounds, 0)
      decreases |bounds| - i
    {
      i := i + 1;
    }
    grade := i;
  }

  /** A trigger: the sample indices where it switches on and off. */
  datatype Trigger = Trigger(on: int, off: int)

  /** The expanded trigger `e` is, or contains, the main trigger `m`. */
  predicate Nests(e: Trigger, m: Trigger)
  {
    e.on <= m.on < m.off <= e.off
  }

  /** The expanded trigger `e` nests at least one of the main triggers. */
  predicate NestsSome(e: Trigger, main: seq<Trigger>)
  {
    exists m :: m in main && Nests(e, m)
  }

  /** The expanded trigger `e` is kept for `m`: it nests `m`, and is not
      dropped as too short when short triggers are deleted. */
  predicate Keeps(e: Trigger, m: Trigger, oobDelete: bool, minLen: real)
  {
    Nests(e, m) && !(oobDelete && ((e.off - e.on) as real) < minLen)
  }

  function MinOf(xs: seq<real>): (r: real)
    requires |xs| > 0
    ensures forall i :: 0 <= i < |xs| ==> r <= xs[i]
    ensures exists i :: 0 <= i < |xs| && r == xs[i]
  {
    if |xs| == 1 then xs[0]
    else
      var rest := MinOf(xs[1..]);
      assert forall i :: 1 <= i < |xs| ==> xs[i] == xs[1..][i - 1];
      if xs[0] <= rest then xs[0] else rest
  }

  /** The kept expanded triggers for one main trigger, in order. */
  function KeptFor(m: Trigger, exp: seq<Trigger>, oobDelete: bool, minLen: real): seq<Trigger>
    decreases |exp|
  {
    if |exp| == 0 then []
    else
      KeptFor(m, exp[..|exp| - 1], oobDelete, minLen)
      + (if Keeps(exp[|exp| - 1], m, oobDelete, minLen) then [exp[|exp| - 1]] else [])
  }

  /** Reference definition of the filter: main triggers outer, expanded inner. */
  function Passing(main: seq<Trigger>, exp: seq<Trigger>, oobDelete: bool, minLen: real): seq<Trigger>
    decreases |main|
  {
    if |main| == 0 then []
    else Passing(main[..|main| - 1], exp, oobDelete, minLen) + KeptFor(main[|main| - 1], exp, oobDelete, minLen)
  }

  lemma {:induction false} KeptForSound(m: Trigger, exp: seq<Trigger>, oobDelete: bool, minLen: real)
    ensures forall k :: 0 <= k < |KeptFor(m, exp, oobDelete, minLen)| ==>
              var e := KeptFor(m, exp, oobDelete, minLen)[k]; e in exp && Keeps(e, m, oobDelete, minLen)
    decreases |exp|
  {
    if |exp| > 0 {
      KeptForSound(m, exp[..|exp| - 1], oobDelete, minLen);
    }
  }

  /** Every trigger the filter returns is one of the expanded triggers, nests
      one of the main triggers, and is kept for it. */
  lemma {:induction false} PassingSound(main: seq<Trigger>, exp: seq<Trigger>, oobDelete: bool, minLen: real)
    ensures forall k :: 0 <= k < |Passing(main, exp, oobDelete, minLen)| ==>
              var e := Passing(main, exp, oobDelete, minLen)[k];
              e in exp && exists m :: m in main && Keeps(e, m, oobDelete, minLen)
    decreases |main|
  {
    if |main| > 0 {
      var init := main[..|main| - 1];
      var last := main[|main| - 1];
      PassingSound(init, exp, oobDelete, minLen);
      KeptForSound(last, exp, oobDelete, minLen);
      var p := Passing(main, exp, oobDelete, minLen);
      var p0 := Passing(init, exp, oobDelete, minLen);
      var q := KeptFor(last, exp, oobDelete, minLen);
      assert p == p0 + q;
      forall k | 0 <= k < |p|
        ensures p[k] in exp && exists m :: m in main && Keeps(p[k], m, oobDelete, minLen)
      {
        if k < |p0| {
          assert p[k] == p0[k];
          var m :| m in init && Keeps(p[k], m, oobDelete, minLen);
          assert m in main;
        } else {
          assert p[k] == q[k - |p0|];
          assert last in main;
        }
      }
    }
  }

  lemma {:induction false} KeptForComplete(m: Trigger, exp: seq<Trigger>, oobDelete: bool, minLen: real, b: int)
    requires 0 <= b < |exp| && Keeps(exp[b], m, oobDelete, minLen)
    ensures exp[b] in KeptFor(m, exp, oobDelete, minLen)
    decreases |exp|
  {
    if b < |exp| - 1 {
      var init := exp[..|exp| - 1];
      assert init[b] == exp[b];
      KeptForComplete(m, init, oobDelete, minLen, b);
    }
  }

  /** Conversely, every expanded trigger kept for some main trigger is returned. */
  lemma {:induction false} PassingComplete(main: seq<Trigger>, exp: seq<Trigger>, oobDelete: bool, minLen: real, a: int, b: int)
    requires 0 <= a < |main| && 0 <= b < |exp|
    requires Keeps(exp[b], main[a], oobDelete, minLen)
    ensures exp[b] in Passing(main, exp, oobDelete, minLen)
    decreases |main|
  {
    var init := main[..|main| - 1];
    if a == |main| - 1 {
      KeptForComplete(main[a], exp, oobDelete, minLen, b);
    } else {
      assert init[a] == main[a];
      PassingComplete(init, exp, oobDelete, minLen, a, b);
    }
  }

  /** The filter over the two trigger lists, as the nested loops of
      `expandable_trigger` run it. */
  method ExpandableTriggerFilter(main: seq<Trigger>, exp: seq<Trigger>, ndataBounds: seq<real>, oobDelete: bool)
    returns (passing: seq<Trigger>)
    requires |ndataBounds| > 0
    ensures passing == Passing(main, exp, oobDelete, MinOf(ndataBounds))
    ensures forall k :: 0 <= k < |passing| ==> passing[k] in exp
    ensures forall k :: 0 <= k < |passing| ==> NestsSome(passing[k], main)
    ensures oobDelete ==> forall k :: 0 <= k < |passing| ==> ((passing[k].off - passing[k].on) as real) >= MinOf(ndataBounds)
  {
    var minLen := MinOf(ndataBounds);
    passing := [];
    var a := 0;
    while a < |main|
      invariant 0 <= a <= |main|
      invariant passing == Passing(main[..a], exp, oobDelete, minLen)
      decreases |main| - a
    {
      var m := main[a];
      var b := 0;
      while b < |exp|
        invariant 0 <= b <= |exp|
        invariant passing == Passing(main[..a], exp, oobDelete, minLen) + KeptFor(m, exp[..b], oobDelete, minLen)
        decreases |exp| - b
      {
        var e := exp[b];
        if Nests(e, m) && !(oobDelete && ((e.off - e.on) as real) < minLen) {
          passing := passing + [e];
        }
        assert exp[..b + 1][..b] == exp[..b];
        b := b + 1;
      }
      assert exp[..b] == exp;
      assert main[..a + 1][..a] == main[..a];
      a := a + 1;
    }
    assert main[..a] == main;
    PassingSound(main, exp, oobDelete, minLen);
    forall k | 0 <= k < |passing|
      ensures NestsSome(passing[k], main)
    {
      var e := Passing(main, exp, oobDelete, minLen)[k];
      assert e == passing[k];
      assert exists m :: m in main && Keeps(e, m, oobDelete, minLen);
      var w :| w in main && Keeps(e, w, oobDelete, minLen);
      assert Nests(passing[k], w);
    }
  }
}
