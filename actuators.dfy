/**
 * What every actuator keeps between requests: the stack of activities it
 * has begun and not yet ended, the trace of the activities it has ended,
 * its performance ratio under failures, and the program it is set up
 * for; and the decisions an actuator makes when a request arrives.
 */
module Actuators {
  import opened Errors
  import opened Properties
  import opened Traces
  import HolderStates

  /** An activity begun at `start` in state `state` and not yet ended. */
  datatype OpenRecord = OpenRecord(start: real, state: string)

  /**
   * The index of the latest open record in `state`, -1 when there is none
   * (the backward scan of `record_end`).
   */
  function LatestWith(rec: seq<OpenRecord>, state: string): (i: int)
    ensures -1 <= i < |rec|
    ensures i >= 0 ==> rec[i].state == state
    ensures forall j :: i < j < |rec| ==> rec[j].state != state
  {
    if rec == [] then -1
    else if rec[|rec| - 1].state == state then |rec| - 1
    else LatestWith(rec[..|rec| - 1], state)
  }

  /**
   * The record `record_end(state)` closes: for a state, the latest open
   * record in that state, and when none is in that state the scan index
   * wraps to -1 and the last record is closed; without a state (None or
   * the empty string), the last record.
   */
  function Closed(rec: seq<OpenRecord>, state: string): (r: OpenRecord)
    requires rec != []
    ensures r in rec
    ensures state != "" && (exists j :: 0 <= j < |rec| && rec[j].state == state) ==>
      r.state == state
    ensures state != "" && LatestWith(rec, state) >= 0 ==> r == rec[LatestWith(rec, state)]
    ensures state != "" && (forall j :: 0 <= j < |rec| ==> rec[j].state != state) ==>
      r == rec[|rec| - 1]
    ensures state == "" ==> r == rec[|rec| - 1]
  {
    if state == "" then rec[|rec| - 1]
    else
      var i := LatestWith(rec, state);
      if i >= 0 then rec[i] else rec[|rec| - 1]
  }

  /**
   * The open records after `record_end(state)`: the closed record is
   * removed with `list.remove`, which takes out the first record equal to
   * it; without a state the last record is popped.
   */
  function Ended(rec: seq<OpenRecord>, state: string): (r: seq<OpenRecord>)
    requires rec != []
    ensures |r| == |rec| - 1
    ensures multiset(r) == multiset(rec) - multiset{Closed(rec, state)}
  {
    if state == "" then
      assert rec == rec[..|rec| - 1] + [rec[|rec| - 1]];
      rec[..|rec| - 1]
    else RemoveFirst(rec, Closed(rec, state))
  }

  /**
   * Beginning an activity and then ending its state closes exactly that
   * activity, from its start to the end date, and leaves the other open
   * records as they were.
   */
  lemma BeginThenEnd(rec: seq<OpenRecord>, start: real, state: string)
    requires state != ""
    ensures Closed(rec + [OpenRecord(start, state)], state) == OpenRecord(start, state)
    ensures multiset(Ended(rec + [OpenRecord(start, state)], state)) == multiset(rec)
    ensures OpenRecord(start, state) !in rec ==> Ended(rec + [OpenRecord(start, state)], state) == rec
  {
    var r := rec + [OpenRecord(start, state)];
    assert LatestWith(r, state) == |rec|;
    if OpenRecord(start, state) !in rec {
      RemoveFirstOfFresh(rec, OpenRecord(start, state));
    }
  }

  lemma {:induction false} RemoveFirstOfFresh<T>(s: seq<T>, x: T)
    requires x !in s
    ensures RemoveFirst(s + [x], x) == s
  {
    if s != [] {
      assert (s + [x])[1..] == s[1..] + [x];
      RemoveFirstOfFresh(s[1..], x);
    }
  }

  /**
   * Ending a state that no open record has closes the most recent
   * activity, whatever its state.
   */
  lemma EndWrapsToLast(rec: seq<OpenRecord>, start: real, other: string, state: string)
    requires state != "" && other != state
    requires forall j :: 0 <= j < |rec| ==> rec[j].state != state
    ensures Closed(rec + [OpenRecord(start, other)], state) == OpenRecord(start, other)
    ensures Ended(rec + [OpenRecord(start, other)], state) ==
      RemoveFirst(rec + [OpenRecord(start, other)], OpenRecord(start, other))
  {
  }

  /** Performance ratio as `degrade` computes it: the ratio minus `ratio`, floored at 0. */
  function DegradeAsWritten(performance: real, ratio: real): (r: real)
    ensures r >= 0.0
    ensures r >= performance - ratio
    ensures performance - ratio >= 0.0 ==> r == performance - ratio
  {
    HolderStates.Max(0.0, performance - ratio)
  }

  /**
   * As written, a degradation followed by its repair restores the ratio
   * only when the floor at 0 was not reached.
   */
  lemma RepairUndoesUnclampedDegrade(performance: real, d: real)
    requires performance >= 0.0 && performance - d >= 0.0
    ensures DegradeAsWritten(DegradeAsWritten(performance, d), -d) == performance
  {
  }

  /**
   * Two failures of full degradation that overlap: each failure removes
   * 1, each repair adds 1 back, and the floor at 0 absorbs the second
   * failure, so the actuator ends at twice its nominal performance.
   */
  lemma OverlappingFailuresOvershoot()
    ensures DegradeAsWritten(DegradeAsWritten(DegradeAsWritten(DegradeAsWritten(1.0, 1.0), 1.0), -1.0), -1.0) == 2.0
  {
    assert DegradeAsWritten(1.0, 1.0) == 0.0;
    assert DegradeAsWritten(0.0, 1.0) == 0.0;
    assert DegradeAsWritten(0.0, -1.0) == 1.0;
  }

  /**
   * The performance ratio under a total loss: nominal (1) minus the
   * degradations in force, floored at 0.
   */
  function RatioFor(loss: real): (r: real)
    ensures 0.0 <= r
    ensures loss >= 0.0 ==> r <= 1.0
    ensures loss == 0.0 ==> r == 1.0
    ensures loss >= 1.0 ==> r == 0.0
  {
    HolderStates.Max(0.0, 1.0 - loss)
  }

  /** The sum of the degradations applied in turn. */
  function Sum(ds: seq<real>): real
  {
    if ds == [] then 0.0 else Sum(ds[..|ds| - 1]) + ds[|ds| - 1]
  }

  /** Each degradation negated: the repairs that match a list of failures. */
  function Negated(ds: seq<real>): (r: seq<real>)
    ensures |r| == |ds| && forall i :: 0 <= i < |ds| ==> r[i] == -ds[i]
  {
    if ds == [] then [] else Negated(ds[..|ds| - 1]) + [-ds[|ds| - 1]]
  }

  lemma {:induction false} SumAppend(a: seq<real>, b: seq<real>)
    ensures Sum(a + b) == Sum(a) + Sum(b)
    decreases |b|
  {
    if b == [] {
      assert a + b == a;
    } else {
      assert (a + b)[..|a + b| - 1] == a + b[..|b| - 1];
      SumAppend(a, b[..|b| - 1]);
    }
  }

  lemma {:induction false} SumNegated(ds: seq<real>)
    ensures Sum(Negated(ds)) == -Sum(ds)
  {
    if ds != [] {
      SumNegated(ds[..|ds| - 1]);
      SumAppend(Negated(ds[..|ds| - 1]), [-ds[|ds| - 1]]);
    }
  }

  /**
   * With the loss tracked, failures followed by their repairs bring the
   * ratio back to 1, whatever they overlapped with.
   */
  lemma {:induction false} RepairsRestore(start: real, ds: seq<real>)
    ensures RatioFor(start + Sum(ds + Negated(ds))) == RatioFor(start)
  {
    SumAppend(ds, Negated(ds));
    SumNegated(ds);
  }

  /**
   * A delay scaled by the performance ratio (`time /= performance_ratio`):
   * a ZeroDivisionError on a failed actuator.
   */
  function ScaledDelay(delay: real, ratio: real): (r: Result<real>)
    ensures ratio == 0.0 <==> r == Err(ZeroDivisionError)
    ensures ratio != 0.0 ==> r.Ok? && r.value * ratio == delay
  {
    if ratio == 0.0 then Err(ZeroDivisionError) else Ok(delay / ratio)
  }

  /** A degraded (ratio in (0, 1]) actuator never works faster than nominal. */
  lemma DegradedIsNotFaster(delay: real, loss: real)
    requires delay >= 0.0 && 0.0 <= loss < 1.0
    ensures ScaledDelay(delay, RatioFor(loss)).Ok?
    ensures ScaledDelay(delay, RatioFor(loss)).value >= delay
  {
    var r := RatioFor(loss);
    var v := ScaledDelay(delay, r).value;
    assert v * r == delay;
    assert v >= 0.0;
    assert v * r <= v * 1.0;
  }

  /** As written, after the overlapping failures a delay is halved. */
  lemma OvershootHalvesDelays(delay: real)
    ensures ScaledDelay(delay, 2.0) == Ok(delay / 2.0)
  {
  }

  /** The kinds of actuator, each with the request keyword that makes it act. */
  datatype Kind = CreateKind | DisposeKind | SpaceKind | ShapeKind | AssembleKind | DisassembleKind

  function ProduceKeyword(k: Kind): (w: string)
    ensures w != "setup"
  {
    match k
    case CreateKind => "create"
    case DisposeKind => "dispose"
    case SpaceKind => "move"
    case ShapeKind => "make"
    case AssembleKind => "assy"
    case DisassembleKind => "unassy"
  }

  /** The keywords are distinct: a request names at most one kind of action. */
  lemma KeywordsDistinct(a: Kind, b: Kind)
    ensures ProduceKeyword(a) == ProduceKeyword(b) <==> a == b
  {
  }

  /**
   * When a request dated `when` is handled by a process woken at `now`:
   * the process waits for a later date; an absent date, or a date of 0
   * (which Python reads as false), means at once.
   */
  function StartTime(when: Option<real>, now: real): (t: real)
    ensures t >= now
    ensures t == now || (when.Some? && t == when.value)
    ensures when.Some? && when.value != 0.0 ==> t == HolderStates.Max(now, when.value)
    ensures when.Some? && when.value == 0.0 && now >= 0.0 ==> t == now
  {
    if when.Some? && when.value != 0.0 && when.value > now then when.value else now
  }

  /** Whether a kind of actuator has programs and setups. */
  predicate Programmable(k: Kind)
  {
    k == SpaceKind || k == ShapeKind || k == AssembleKind || k == DisassembleKind
  }

  /** What an actuator does with one request. */
  datatype Plan = Plan(
    newProgram: Value,    // the program the request asks for
    setup: bool,          // a setup to `newProgram` runs first
    reportSetup: bool,    // the setup ends with a 'setup-done' report
    produce: bool)        // the actuator then performs its action

  /**
   * Whether a setup runs: on an explicit 'setup' request, or on a produce
   * request for another program than the current one.
   */
  predicate SetupRuns(k: Kind, what: string, program: Value, newProgram: Value)
    ensures program == newProgram ==> (SetupRuns(k, what, program, newProgram) <==> what == "setup")
    ensures what == ProduceKeyword(k) ==> (SetupRuns(k, what, program, newProgram) <==> program != newProgram)
    ensures what != "setup" && what != ProduceKeyword(k) ==> !SetupRuns(k, what, program, newProgram)
  {
    what == "setup" || (what == ProduceKeyword(k) && program != newProgram)
  }

  /**
   * "Implicit" as written: the setup changes the program, whatever the
   * request asked for. An implicit setup is not reported.
   */
  predicate ImplicitAsWritten(program: Value, newProgram: Value)
    ensures program == newProgram ==> !ImplicitAsWritten(program, newProgram)
  {
    program != newProgram
  }

  /**
   * As written, a setup reports 'setup-done' exactly when it was asked
   * for explicitly AND keeps the program: an explicit setup that changes
   * the program ends silently.
   */
  lemma SetupDoneAsWritten(k: Kind, what: string, program: Value, newProgram: Value)
    ensures SetupRuns(k, what, program, newProgram) && !ImplicitAsWritten(program, newProgram) <==>
      what == "setup" && program == newProgram
  {
  }

  lemma ExplicitChangeIsSilent(k: Kind, p: string, q: string)
    requires p != q
    ensures SetupRuns(k, "setup", VStr(p), VStr(q))
    ensures ImplicitAsWritten(VStr(p), VStr(q))
  {
  }

  /** "Implicit", corrected: the setup was not asked for, only implied by a produce request. */
  predicate Implicit(what: string)
    ensures what == "setup" ==> !Implicit(what)
  {
    what != "setup"
  }

  /**
   * The program a request asks for. A move actuator requires a 'program'
   * parameter (KeyError without one) naming a program of its table
   * (EmulicaError otherwise); the other programmable actuators keep their
   * current program when the request names none.
   */
  function NewProgram(k: Kind, how: map<string, Value>, current: Value, table: set<string>): (r: Result<Value>)
    requires Programmable(k)
    ensures k == SpaceKind && "program" !in how ==> r == Err(KeyError)
    ensures k == SpaceKind && "program" in how ==>
      (r.Ok? <==> how["program"].VStr? && how["program"].s in table)
    ensures r.Ok? && "program" in how ==> r.value == how["program"]
    ensures k != SpaceKind ==> r == Ok(if "program" in how then how["program"] else current)
  {
    if k == SpaceKind then
      if "program" !in how then Err(KeyError)
      else if how["program"].VStr? && how["program"].s in table then Ok(how["program"])
      else Err(EmulicaError("program {0} is not in the program table"))
    else if "program" in how then Ok(how["program"])
    else Ok(current)
  }

  /**
   * The decisions a programmable actuator takes on a request `what` with
   * parameters `how`, when it is set up for `program`.
   */
  function Decide(k: Kind, what: string, how: map<string, Value>, program: Value, table: set<string>): (r: Result<Plan>)
    requires Programmable(k)
    ensures r.Ok? <==> NewProgram(k, how, program, table).Ok?
    ensures r.Ok? ==> r.value.newProgram == NewProgram(k, how, program, table).value
    ensures r.Ok? ==> (r.value.setup <==> SetupRuns(k, what, program, r.value.newProgram))
    ensures r.Ok? ==> (r.value.reportSetup <==> what == "setup")
    ensures r.Ok? ==> (r.value.produce <==> what == ProduceKeyword(k))
    ensures r.Ok? && r.value.produce ==> (r.value.setup <==> program != r.value.newProgram)
  {
    match NewProgram(k, how, program, table)
    case Err(e) => Err(e)
    case Ok(p) =>
      var setup := SetupRuns(k, what, program, p);
      Ok(Plan(p, setup, setup && !Implicit(what), what == ProduceKeyword(k)))
  }

  /**
   * After a plan's setup, the actuator is set up for the requested
   * program, so a produce request for that program needs no new setup.
   */
  lemma SetupThenNoSetup(k: Kind, what: string, how: map<string, Value>, program: Value, table: set<string>)
    requires Programmable(k) && Decide(k, what, how, program, table).Ok?
    requires "program" in how
    ensures var p := Decide(k, what, how, program, table).value.newProgram;
      Decide(k, ProduceKeyword(k), how, p, table).Ok? &&
      !Decide(k, ProduceKeyword(k), how, p, table).value.setup
  {
  }

  /**
   * The first hold of an interruptible hold loop with `left` time units
   * to go: `left` scaled by the performance ratio, or a wait of 1 on a
   * failed actuator (ratio 0), until a failure interrupts it.
   */
  function HoldFirst(left: real, ratio: real): (t: real)
    ensures ratio > 0.0 ==> t * ratio == left
    ensures ratio <= 0.0 ==> t == 1.0
  {
    if ratio > 0.0 then left / ratio else 1.0
  }

  /**
   * What an uninterrupted hold leaves to do: `left` minus the ratio
   * times `left`, and all of it when the actuator is failed.
   */
  function HoldLeft(left: real, ratio: real): (r: real)
    ensures ratio > 0.0 ==> r == left * (1.0 - ratio)
    ensures ratio <= 0.0 ==> r == left
  {
    if ratio > 0.0 then left - ratio * left else left
  }

  /**
   * The hold loop of a shape actuator's setup: at nominal performance
   * one hold of the delay ends it; a degraded actuator holds longer than
   * the delay and still has time left, so the loop goes on; a failed one
   * makes no progress.
   */
  lemma HoldLoopSteps(delay: real, ratio: real)
    requires delay > 0.0
    ensures ratio == 1.0 ==> HoldFirst(delay, ratio) == delay && HoldLeft(delay, ratio) == 0.0
    ensures 0.0 < ratio < 1.0 ==> HoldFirst(delay, ratio) > delay && HoldLeft(delay, ratio) > 0.0
    ensures ratio <= 0.0 ==> HoldLeft(delay, ratio) == delay
  {
    if 0.0 < ratio < 1.0 {
      var t := HoldFirst(delay, ratio);
      assert t == delay / ratio;
      PositiveQuotient(delay, ratio);
      PositiveProduct(t, 1.0 - ratio);
      assert t * (1.0 - ratio) == t - t * ratio;
      PositiveProduct(delay, 1.0 - ratio);
    }
  }

  lemma PositiveProduct(a: real, b: real)
    requires a > 0.0 && b > 0.0
    ensures a * b > 0.0
  {
  }

  lemma PositiveQuotient(a: real, b: real)
    requires a > 0.0 && b > 0.0
    ensures a / b > 0.0
  {
    assert a / b * b == a;
  }

  /**
   * The delay of a setup: a move actuator waits the delay of the setup
   * matrix as it is; a shape actuator holds it through its hold loop,
   * whose first hold is returned; assembly and disassembly actuators
   * scale it by the performance ratio.
   */
  function SetupDelay(k: Kind, delay: real, ratio: real): (r: Result<real>)
    requires Programmable(k)
    ensures k == SpaceKind ==> r == Ok(delay)
    ensures k == ShapeKind ==> r == Ok(HoldFirst(delay, ratio))
    ensures (k == AssembleKind || k == DisassembleKind) ==> r == ScaledDelay(delay, ratio)
  {
    if k == SpaceKind then Ok(delay)
    else if k == ShapeKind then Ok(HoldFirst(delay, ratio))
    else ScaledDelay(delay, ratio)
  }

  /**
   * The product a create actuator makes: the 'productID' parameter, else
   * 0 (a fresh id), and the 'productType' parameter, else 'defaulType'.
   */
  function CreateArguments(how: map<string, Value>): (r: (Value, Value))
    ensures r.0 == (if "productID" in how then how["productID"] else VNum(0.0))
    ensures r.1 == (if "productType" in how then how["productType"] else VStr("defaulType"))
  {
    (if "productID" in how then how["productID"] else VNum(0.0),
     if "productType" in how then how["productType"] else VStr("defaulType"))
  }

  /**
   * A create request without a type gives a type spelled differently
   * from the default a product receives when created without one.
   */
  lemma CreateDefaultTypeDiffers()
    ensures CreateArguments(map[]).1 != VStr("defaultType")
    ensures CreateArguments(map[]).0 == VNum(0.0)
  {
  }

  class Actuator {
    var rec: seq<OpenRecord>
    var trace: TraceList
    var loss: real
    var performanceRatio: real
    var program: Value

    /** The ratio follows the loss in force. */
    predicate Valid()
      reads this
    {
      performanceRatio == RatioFor(loss)
    }

    constructor ()
      ensures Valid()
      ensures rec == [] && fresh(trace) && trace.items == []
      ensures loss == 0.0 && performanceRatio == 1.0 && program == VNone
    {
      rec := [];
      trace := new TraceList();
      loss := 0.0;
      performanceRatio := 1.0;
      program := VNone;
    }

    /** Ready for a new run (`initialize`): no records, a new empty trace, nominal performance. */
    method Initialize()
      modifies this
      ensures Valid()
      ensures rec == [] && fresh(trace) && trace.items == []
      ensures loss == 0.0 && performanceRatio == 1.0 && program == old(program)
    {
      rec := [];
      trace := new TraceList();
      loss := 0.0;
      performanceRatio := 1.0;
    }

    /** Open an activity in `state` at `now` (`record_begin`). */
    method RecordBegin(now: real, state: string)
      modifies this
      ensures rec == old(rec) + [OpenRecord(now, state)]
      ensures trace == old(trace) && loss == old(loss) && performanceRatio == old(performanceRatio)
      ensures program == old(program)
    {
      rec := rec + [OpenRecord(now, state)];
    }

    /**
     * Close an activity at `now` (`record_end`): with no open record
     * nothing happens; otherwise the record chosen by `Closed` leaves the
     * open records and its (start, now, state) entry is appended to the
     * trace.
     */
    method RecordEnd(now: real, state: string)
      modifies this, trace
      ensures trace == old(trace) && loss == old(loss) && performanceRatio == old(performanceRatio)
      ensures program == old(program)
      ensures old(rec) == [] ==> rec == [] && trace.items == old(trace.items)
      ensures old(rec) != [] ==> rec == Ended(old(rec), state)
      ensures old(rec) != [] ==>
        var c := Closed(old(rec), state);
        trace.items == old(trace.items) + [TraceEntry(c.start, now, c.state)]
    {
      if rec == [] {
        return;
      }
      var closed: OpenRecord;
      if state != "" {
        var i := |rec| - 1;
        while i >= 0 && rec[i].state != state
          invariant -1 <= i < |rec|
          invariant forall j :: i < j < |rec| ==> rec[j].state != state
          decreases i
        {
          i := i - 1;
        }
        assert i == LatestWith(rec, state);
        closed := if i >= 0 then rec[i] else rec[|rec| - 1];
        rec := RemoveFirst(rec, closed);
      } else {
        closed := rec[|rec| - 1];
        rec := rec[..|rec| - 1];
      }
      trace.Append(TraceEntry(closed.start, now, closed.state));
    }

    /**
     * Degrade (a positive `ratio`) or restore (a negative one) the
     * performance (`degrade`). The degradations in force are summed, so
     * that a repair undoes exactly its own failure; see the findings for
     * the ratio as written.
     */
    method Degrade(ratio: real)
      requires Valid()
      modifies this
      ensures Valid()
      ensures loss == old(loss) + ratio
      ensures rec == old(rec) && trace == old(trace) && program == old(program)
    {
      loss := loss + ratio;
      performanceRatio := RatioFor(loss);
    }

    /**
     * The overlapping failures of `OverlappingFailuresOvershoot` on an
     * actuator: both failures stop it, and after both repairs it is back
     * at its nominal performance.
     */
    method OverlappingFailures()
      requires Valid() && loss == 0.0
      modifies this
      ensures Valid() && loss == 0.0 && performanceRatio == 1.0
    {
      Degrade(1.0);
      assert performanceRatio == 0.0;
      Degrade(1.0);
      assert performanceRatio == 0.0;
      Degrade(-1.0);
      Degrade(-1.0);
    }

    /**
     * A setup from `start` to `end` towards `newProgram`: a 'setup'
     * activity opened and closed, then the new program in force.
     */
    method Setup(start: real, end: real, newProgram: Value)
      modifies this, trace
      ensures trace == old(trace) && loss == old(loss) && performanceRatio == old(performanceRatio)
      ensures trace.items == old(trace.items) + [TraceEntry(start, end, "setup")]
      ensures multiset(rec) == multiset(old(rec))
      ensures OpenRecord(start, "setup") !in old(rec) ==> rec == old(rec)
      ensures program == newProgram
    {
      BeginThenEnd(rec, start, "setup");
      RecordBegin(start, "setup");
      RecordEnd(end, "setup");
      program := newProgram;
    }
  }
}
