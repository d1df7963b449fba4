/**
 * Trace processing of emulica's plot module: the occupation Monitor of a
 * holder, the step-plot expansion of the holder chart and the condensed
 * rows of the Gantt chart. Drawing (matplotlib) is not modelled.
 */
module Plot {
  import opened Errors
  import opened Traces

  // ---------------------------------------------------------------------
  // Monitor
  // ---------------------------------------------------------------------

  /** The end of the k-th interval: the next event time, `now` after the last. */
  function Ext(ts: seq<real>, now: real, j: nat): real
    requires j <= |ts|
  {
    if j < |ts| then ts[j] else now
  }

  /**
   * The area under the step function that holds value vs[i] from ts[i]
   * until the next event (until `now` for the last one), over the first
   * k intervals.
   */
  function Area(ts: seq<real>, vs: seq<real>, now: real, k: nat): real
    requires |vs| == |ts| && k <= |ts|
  {
    if k == 0 then 0.0
    else Area(ts, vs, now, k - 1) + vs[k - 1] * (Ext(ts, now, k) - Ext(ts, now, k - 1))
  }

  /** The series' times never go back, and `now` is not before the last. */
  predicate Chronological(ts: seq<real>, now: real)
  {
    (forall i, j :: 0 <= i < j < |ts| ==> ts[i] <= ts[j]) &&
    (|ts| > 0 ==> ts[|ts| - 1] <= now)
  }

  /** A constant series has the constant times the covered time as area. */
  lemma {:induction false} AreaConstant(ts: seq<real>, vs: seq<real>, now: real, k: nat, c: real)
    requires |vs| == |ts| && k <= |ts|
    requires forall i :: 0 <= i < |vs| ==> vs[i] == c
    ensures Area(ts, vs, now, k) == c * (Ext(ts, now, k) - Ext(ts, now, 0))
  {
    if k > 0 {
      AreaConstant(ts, vs, now, k - 1, c);
    }
  }

  /** Over chronological times the interval ends never go back. */
  lemma ExtStep(ts: seq<real>, now: real, k: nat)
    requires 0 < k <= |ts| && Chronological(ts, now)
    ensures Ext(ts, now, k - 1) <= Ext(ts, now, k)
  {
    if k < |ts| {
      assert ts[k - 1] <= ts[k];
    }
  }

  /** Multiplying by a non-negative factor keeps an order. */
  lemma MulMonotone(a: real, b: real, d: real)
    requires a <= b && d >= 0.0
    ensures a * d <= b * d
  {
    assert b * d - a * d == (b - a) * d;
  }

  /** Splitting an interval splits its weighted length. */
  lemma Distribute(c: real, e0: real, e1: real, e2: real)
    ensures c * (e2 - e0) == c * (e1 - e0) + c * (e2 - e1)
  {
  }

  /** One more interval, weighted by at least `lo`, keeps the lower bound. */
  lemma StepLower(lo: real, v: real, e0: real, e1: real, e2: real, a: real)
    requires lo <= v && e1 <= e2 && lo * (e1 - e0) <= a
    ensures lo * (e2 - e0) <= a + v * (e2 - e1)
  {
    MulMonotone(lo, v, e2 - e1);
    Distribute(lo, e0, e1, e2);
  }

  /** One more interval, weighted by at most `hi`, keeps the upper bound. */
  lemma StepUpper(hi: real, v: real, e0: real, e1: real, e2: real, a: real)
    requires v <= hi && e1 <= e2 && a <= hi * (e1 - e0)
    ensures a + v * (e2 - e1) <= hi * (e2 - e0)
  {
    MulMonotone(v, hi, e2 - e1);
    Distribute(hi, e0, e1, e2);
  }

  /** Values at least `lo` over chronological times give at least `lo` per time unit. */
  lemma {:induction false} AreaLower(ts: seq<real>, vs: seq<real>, now: real, k: nat, lo: real)
    requires |vs| == |ts| && k <= |ts|
    requires Chronological(ts, now)
    requires forall i :: 0 <= i < |vs| ==> lo <= vs[i]
    ensures lo * (Ext(ts, now, k) - Ext(ts, now, 0)) <= Area(ts, vs, now, k)
  {
    if k > 0 {
      AreaLower(ts, vs, now, k - 1, lo);
      ExtStep(ts, now, k);
      var e0, e1, e2 := Ext(ts, now, 0), Ext(ts, now, k - 1), Ext(ts, now, k);
      var a := Area(ts, vs, now, k - 1);
      assert Area(ts, vs, now, k) == a + vs[k - 1] * (e2 - e1);
      StepLower(lo, vs[k - 1], e0, e1, e2, a);
    } else {
      assert Ext(ts, now, k) - Ext(ts, now, 0) == 0.0;
    }
  }

  /** Values at most `hi` over chronological times give at most `hi` per time unit. */
  lemma {:induction false} AreaUpper(ts: seq<real>, vs: seq<real>, now: real, k: nat, hi: real)
    requires |vs| == |ts| && k <= |ts|
    requires Chronological(ts, now)
    requires forall i :: 0 <= i < |vs| ==> vs[i] <= hi
    ensures Area(ts, vs, now, k) <= hi * (Ext(ts, now, k) - Ext(ts, now, 0))
  {
    if k > 0 {
      AreaUpper(ts, vs, now, k - 1, hi);
      ExtStep(ts, now, k);
      var e0, e1, e2 := Ext(ts, now, 0), Ext(ts, now, k - 1), Ext(ts, now, k);
      var a := Area(ts, vs, now, k - 1);
      assert Area(ts, vs, now, k) == a + vs[k - 1] * (e2 - e1);
      StepUpper(hi, vs[k - 1], e0, e1, e2, a);
    } else {
      assert Ext(ts, now, k) - Ext(ts, now, 0) == 0.0;
    }
  }

  /** A time series of observed values (the occupation of a holder). */
  class Monitor {
    var times: seq<real>
    var values: seq<real>

    /** The two series have one entry per observation, the first (0, 0). */
    predicate Valid()
      reads this
    {
      |times| == |values| && |times| >= 1
    }

    constructor ()
      ensures Valid()
      ensures times == [0.0] && values == [0.0]
    {
      times := [0.0];
      values := [0.0];
    }

    /** Record `value` observed at time `now` (`observe`). */
    method Observe(now: real, value: real)
      requires Valid()
      modifies this
      ensures Valid()
      ensures times == old(times) + [now]
      ensures values == old(values) + [value]
    {
      times := times + [now];
      values := values + [value];
    }

    /** The number of observations (`__len__`), the initial one included. */
    function Len(): (n: nat)
      reads this
      requires Valid()
      ensures n == |values| && n >= 1
    {
      |times|
    }

    /**
     * The time-weighted average of the values at time `now`
     * (`time_average`): the area under the step function divided by
     * `now`; a ZeroDivisionError at time 0.
     */
    method TimeAverage(now: real) returns (r: Result<real>)
      requires Valid()
      ensures now == 0.0 ==> r == Err(ZeroDivisionError)
      ensures now != 0.0 ==> r == Ok(Area(times, values, now, |times|) / now)
    {
      var result := 0.0;
      var i := 0;
      while i < |times|
        invariant 0 <= i <= |times|
        invariant result == Area(times, values, now, i)
      {
        var next := if i + 1 < |times| then times[i + 1] else now;
        result := result + values[i] * (next - times[i]);
        i := i + 1;
      }
      if now == 0.0 {
        return Err(ZeroDivisionError);
      }
      r := Ok(result / now);
    }
  }

  /**
   * Over a series that starts at time 0, the average at a later time lies
   * between the smallest and the largest possible value.
   */
  lemma AverageBetween(ts: seq<real>, vs: seq<real>, now: real, lo: real, hi: real)
    requires |vs| == |ts| && |ts| >= 1 && ts[0] == 0.0 && now > 0.0
    requires Chronological(ts, now)
    requires forall i :: 0 <= i < |vs| ==> lo <= vs[i] <= hi
    ensures lo <= Area(ts, vs, now, |ts|) / now <= hi
  {
    AreaLower(ts, vs, now, |ts|, lo);
    AreaUpper(ts, vs, now, |ts|, hi);
    DivBetween(Area(ts, vs, now, |ts|), now, lo, hi);
  }

  /** Dividing by a positive divisor keeps bounds scaled by it. */
  lemma DivBetween(a: real, d: real, lo: real, hi: real)
    requires d > 0.0 && lo * d <= a <= hi * d
    ensures lo <= a / d <= hi
  {
    assert a / d * d == a;
  }

  // ---------------------------------------------------------------------
  // HolderChart
  // ---------------------------------------------------------------------

  /** The largest element of a non-empty sequence (Python's `max`). */
  function SeqMax(s: seq<real>): (m: real)
    requires |s| > 0
    ensures m in s
    ensures forall i :: 0 <= i < |s| ==> s[i] <= m
  {
    if |s| == 1 then s[0]
    else
      var rest := SeqMax(s[1..]);
      if s[0] >= rest then s[0] else rest
  }

  function Min(a: nat, b: nat): nat { if a <= b then a else b }

  /** The chart of the occupation of holders. */
  class HolderChart {
    var max: real
    var tEnd: real

    constructor ()
      ensures max == 0.0 && tEnd == 0.0
    {
      max := 0.0;
      tEnd := 0.0;
    }

    /**
     * Turn an observation series into the points of a step plot
     * (`process_trace`): the first point, then for each later time t_k
     * the points (t_k, v_{k-1}) and (t_k, v_k), and a last point at tEnd
     * holding the last value; `max` becomes the largest value. Series of
     * different lengths are cut to the shorter one (Python's `zip`); an
     * empty series is an IndexError.
     */
    method ProcessTrace(times: seq<real>, values: seq<real>) returns (r: Result<(seq<real>, seq<real>)>)
      modifies this`max
      ensures r.Err? <==> values == [] || times == []
      ensures r.Err? ==> r.error == IndexError && max == old(max)
      ensures r.Ok? ==> max == SeqMax(values)
      ensures r.Ok? ==> var n := Min(|times|, |values|);
        var (rt, rs) := r.value;
        |rt| == 2 * n && |rs| == 2 * n &&
        rt[0] == times[0] && rs[0] == values[0] &&
        rt[2 * n - 1] == tEnd && rs[2 * n - 1] == values[n - 1] &&
        (forall k :: 1 <= k < n ==>
          rt[2 * k - 1] == times[k] && rt[2 * k] == times[k] &&
          rs[2 * k - 1] == values[k - 1] && rs[2 * k] == values[k])
    {
      if values == [] || times == [] {
        return Err(IndexError);
      }
      var n := Min(|times|, |values|);
      var curV := values[0];
      var rs := [curV];
      var rt := [times[0]];
      var k := 1;
      while k < n
        invariant 1 <= k <= n
        invariant |rt| == 2 * k - 1 && |rs| == 2 * k - 1
        invariant rt[0] == times[0] && rs[0] == values[0]
        invariant curV == values[k - 1]
        invariant forall j :: 1 <= j < k ==>
          rt[2 * j - 1] == times[j] && rt[2 * j] == times[j] &&
          rs[2 * j - 1] == values[j - 1] && rs[2 * j] == values[j]
      {
        rs := rs + [curV];
        rt := rt + [times[k]];
        curV := values[k];
        rs := rs + [values[k]];
        rt := rt + [times[k]];
        k := k + 1;
      }
      rs := rs + [curV];
      rt := rt + [tEnd];
      max := SeqMax(values);
      r := Ok((rt, rs));
    }
  }

  // ---------------------------------------------------------------------
  // GanttChart
  // ---------------------------------------------------------------------

  /** A row segment of the Gantt chart: from `start` to `end`, labelled. */
  datatype Bar = Bar(start: real, end: real, tag: string)

  const Failure: string := "failure"

  /** Relative tolerance under which two activities are contiguous. */
  const Tolerance: real := 0.000001

  function Abs(x: real): real { if x < 0.0 then -x else x }

  /** The failure entries of a trace, in order. */
  function Failures(s: seq<TraceEntry>): (f: seq<TraceEntry>)
    ensures |f| <= |s|
    ensures forall k :: 0 <= k < |f| ==> f[k].state == Failure
  {
    if s == [] then []
    else if s[0].state == Failure then [s[0]] + Failures(s[1..])
    else Failures(s[1..])
  }

  /** The entries of a trace that are not failures, in order. */
  function NonFailures(s: seq<TraceEntry>): (f: seq<TraceEntry>)
    ensures |f| <= |s|
    ensures forall k :: 0 <= k < |f| ==> f[k].state != Failure
  {
    if s == [] then []
    else if s[0].state == Failure then NonFailures(s[1..])
    else [s[0]] + NonFailures(s[1..])
  }

  /** The trace with its first `j` failure entries taken out. */
  function DropFailures(s: seq<TraceEntry>, j: nat): seq<TraceEntry>
  {
    if s == [] || j == 0 then s
    else if s[0].state == Failure then DropFailures(s[1..], j - 1)
    else [s[0]] + DropFailures(s[1..], j)
  }

  /**
   * Removing, with `list.remove`, the next failure of the list from a
   * trace whose first j failures are gone takes out the (j+1)-th one.
   */
  lemma {:induction false} RemoveNextFailure(s: seq<TraceEntry>, j: nat)
    requires j < |Failures(s)|
    ensures Failures(s)[j] in DropFailures(s, j)
    ensures RemoveFirst(DropFailures(s, j), Failures(s)[j]) == DropFailures(s, j + 1)
  {
    if s[0].state == Failure {
      if j > 0 {
        RemoveNextFailure(s[1..], j - 1);
      }
    } else {
      RemoveNextFailure(s[1..], j);
      assert DropFailures(s, j) == [s[0]] + DropFailures(s[1..], j);
    }
  }

  /** Taking out every failure leaves the non-failures. */
  lemma {:induction false} DropAllFailures(s: seq<TraceEntry>)
    ensures DropFailures(s, |Failures(s)|) == NonFailures(s)
  {
    if s != [] {
      DropAllFailures(s[1..]);
    }
  }

  /**
   * The condensed rows of the rest of a trace, the current row running
   * from `start` to `end` with label `p`: zero-length entries are
   * skipped, an entry whose state equals the current label and that
   * starts (within tolerance) where the row ends extends it, any other
   * entry closes the row and opens one labelled name + state.
   */
  function Condense(name: string, rest: seq<TraceEntry>, start: real, end: real, p: string): (r: seq<Bar>)
    ensures 1 <= |r| <= |rest| + 1
    ensures r[0].start == start
    decreases |rest|
  {
    if rest == [] then [Bar(start, end, p)]
    else
      var tr := rest[0];
      if tr.start == tr.end then Condense(name, rest[1..], start, end, p)
      else if tr.state == p && Abs(tr.start - end) < end * Tolerance then
        Condense(name, rest[1..], start, tr.end, p)
      else [Bar(start, end, p)] + Condense(name, rest[1..], tr.start, tr.end, name + tr.state)
  }

  /** Every condensed row is labelled with `name` followed by a state. */
  lemma {:induction false} CondenseLabels(name: string, rest: seq<TraceEntry>, start: real, end: real, p: string)
    requires name <= p
    ensures forall k :: 0 <= k < |Condense(name, rest, start, end, p)| ==>
      name <= Condense(name, rest, start, end, p)[k].tag
    decreases |rest|
  {
    if rest != [] {
      var tr := rest[0];
      if tr.start == tr.end {
        CondenseLabels(name, rest[1..], start, end, p);
      } else if tr.state == p && Abs(tr.start - end) < end * Tolerance {
        CondenseLabels(name, rest[1..], start, tr.end, p);
      } else {
        CondenseLabels(name, rest[1..], tr.start, tr.end, name + tr.state);
      }
    }
  }

  /** The entries of a trace that do not have zero length, in order. */
  function NonEmpty(s: seq<TraceEntry>): (r: seq<TraceEntry>)
    ensures |r| <= |s|
  {
    if s == [] then []
    else if s[0].start == s[0].end then NonEmpty(s[1..])
    else [s[0]] + NonEmpty(s[1..])
  }

  /** Each entry as a row of its own, labelled name + state. */
  function Rows(name: string, s: seq<TraceEntry>): (r: seq<Bar>)
    ensures |r| == |s|
    ensures forall k :: 0 <= k < |s| ==> r[k] == Bar(s[k].start, s[k].end, name + s[k].state)
  {
    if s == [] then [] else [Bar(s[0].start, s[0].end, name + s[0].state)] + Rows(name, s[1..])
  }

  /**
   * When no state of the rest equals the current label or name + another
   * state (always so with a non-empty name and states of one length),
   * nothing merges: every non-empty entry becomes a row of its own.
   */
  lemma {:induction false} CondenseNeverMerges(name: string, rest: seq<TraceEntry>, start: real, end: real, p: string,
                                               states: set<string>)
    requires forall k :: 0 <= k < |rest| ==> rest[k].state in states
    requires forall s, t :: s in states && t in states ==> s != name + t
    requires forall s :: s in states ==> s != p
    ensures Condense(name, rest, start, end, p) == [Bar(start, end, p)] + Rows(name, NonEmpty(rest))
    decreases |rest|
  {
    if rest != [] {
      var tr := rest[0];
      assert tr.state in states;
      if tr.start == tr.end {
        CondenseNeverMerges(name, rest[1..], start, end, p, states);
      } else {
        CondenseNeverMerges(name, rest[1..], tr.start, tr.end, name + tr.state, states);
      }
    }
  }

  /** With an empty name two contiguous activities of one state merge. */
  lemma MergeWithEmptyName()
    ensures Condense("", [TraceEntry(1.0, 2.0, "p1")], 0.0, 1.0, "p1") == [Bar(0.0, 2.0, "p1")]
  {
  }

  /**
   * Collect the failure entries of a trace and remove them from it in
   * place, one `list.remove` per failure.
   */
  method SplitFailures(trace: TraceList) returns (failures: seq<TraceEntry>)
    modifies trace
    ensures failures == Failures(old(trace.items))
    ensures trace.items == NonFailures(old(trace.items))
  {
    ghost var orig := trace.items;
    failures := [];
    var i := 0;
    while i < |trace.items|
      invariant 0 <= i <= |trace.items|
      invariant trace.items == orig
      invariant failures == Failures(orig[..i])
    {
      assert orig[..i + 1] == orig[..i] + [orig[i]];
      FailuresAppend(orig[..i], orig[i]);
      if trace.items[i].state == Failure {
        failures := failures + [trace.items[i]];
      }
      i := i + 1;
    }
    assert orig[..i] == orig;
    var j := 0;
    while j < |failures|
      invariant 0 <= j <= |failures|
      invariant trace.items == DropFailures(orig, j)
    {
      RemoveNextFailure(orig, j);
      trace.Remove(failures[j]);
      j := j + 1;
    }
    DropAllFailures(orig);
  }

  /** Condense a non-empty trace into Gantt rows, its first entry opening the first row. */
  method CondenseTrace(name: string, t: seq<TraceEntry>) returns (condensed: seq<Bar>)
    requires t != []
    ensures condensed == Condense(name, t[1..], t[0].start, t[0].end, name + t[0].state)
  {
    var p := name + t[0].state;
    var start := t[0].start;
    var end := t[0].end;
    condensed := [];
    var k := 1;
    while k < |t|
      invariant 1 <= k <= |t|
      invariant condensed + Condense(name, t[k..], start, end, p) ==
                Condense(name, t[1..], t[0].start, t[0].end, name + t[0].state)
    {
      var tr := t[k];
      assert t[k..][1..] == t[k + 1..];
      if tr.start == tr.end {
      } else if tr.state == p && Abs(tr.start - end) < end * Tolerance {
        end := tr.end;
      } else {
        condensed := condensed + [Bar(start, end, p)];
        start := tr.start;
        p := name + tr.state;
        end := tr.end;
      }
      k := k + 1;
    }
    condensed := condensed + [Bar(start, end, p)];
  }

  /**
   * Split the failures off an actuator trace and condense the rest into
   * Gantt rows (`process_trace`). The failures are removed from the trace
   * in place; an empty trace gives the single row (0, 0, "failure"); a
   * trace made only of failures is an IndexError once they are removed.
   */
  method GanttProcessTrace(name: string, trace: TraceList) returns (r: Result<(seq<Bar>, seq<TraceEntry>)>)
    modifies trace
    ensures old(trace.items) == [] ==> r == Ok(([Bar(0.0, 0.0, Failure)], [])) && trace.items == []
    ensures old(trace.items) != [] ==> trace.items == NonFailures(old(trace.items))
    ensures old(trace.items) != [] && trace.items == [] ==> r == Err(IndexError)
    ensures old(trace.items) != [] && trace.items != [] ==>
      var t := trace.items;
      r == Ok((Condense(name, t[1..], t[0].start, t[0].end, name + t[0].state), Failures(old(trace.items))))
  {
    if trace.items == [] {
      return Ok(([Bar(0.0, 0.0, Failure)], []));
    }
    var failures := SplitFailures(trace);
    if trace.items == [] {
      return Err(IndexError);
    }
    var condensed := CondenseTrace(name, trace.items);
    r := Ok((condensed, failures));
  }

  /** The failures of a trace extended by one entry. */
  lemma {:induction false} FailuresAppend(s: seq<TraceEntry>, e: TraceEntry)
    ensures Failures(s + [e]) == Failures(s) + (if e.state == Failure then [e] else [])
  {
    if s == [] {
      assert [e][1..] == [];
    } else {
      assert (s + [e])[1..] == s[1..] + [e];
      FailuresAppend(s[1..], e);
    }
  }
}
