/**
 * Observers of a holder. A push observer reports, on its own initiative,
 * each product that becomes the first ready one (a rising edge), and
 * optionally its departure (a falling edge). A pull observer answers a
 * query with the position, identity and type of every product.
 */
module Observers {
  import opened Errors
  import opened Properties
  import opened Messages
  import opened Products
  import opened HolderStates

  /**
   * The rising-edge decision: whether a report is due, and the product
   * remembered afterwards, given whether a first product is ready, which
   * one it is, and the product last reported.
   */
  function Edge(ready: bool, head: Product, last: Product?): (r: (bool, Product?))
    ensures r.0 <==> ready && head != last
    ensures r.1 == (if ready then head else null)
  {
    if ready then
      if last == null || head != last then (true, head) else (false, last)
    else (false, null)
  }

  /** A ready head is reported once: asking again at once reports nothing. */
  lemma EdgeFiresOnce(head: Product, last: Product?)
    ensures !Edge(true, head, Edge(true, head, last).1).0
  {
  }

  /**
   * When the head stops being ready the memory is cleared, so the same
   * product is reported again when it becomes ready again.
   */
  lemma EdgeRearms(head: Product, last: Product?)
    ensures Edge(false, head, last).1 == null
    ensures Edge(true, head, Edge(false, head, last).1).0
  {
  }

  /** A new head is reported even while the previous one was ready. */
  lemma EdgeNewHead(head: Product, other: Product)
    requires head != other
    ensures Edge(true, head, Edge(true, other, null).1).0
  {
  }

  /** The parameters of a push report: type, identity and presence, as configured. */
  function PushParams(p: Product, observeType: bool, identify: bool, observeAbsence: bool): (how: map<string, Value>)
    reads p
    ensures "productType" in how <==> observeType
    ensures "productID" in how <==> identify
    ensures "present" in how <==> observeAbsence
    ensures observeType ==> how["productType"] == VStr(p.productType)
    ensures identify ==> how["productID"] == VNum(p.pid as real)
    ensures observeAbsence ==> how["present"] == VBool(true)
    ensures forall k :: k in how ==> k in {"productType", "productID", "present"}
  {
    var a := if observeType then map["productType" := VStr(p.productType)] else map[];
    var b := if identify then a["productID" := VNum(p.pid as real)] else a;
    if observeAbsence then b["present" := VBool(true)] else b
  }

  /** The rising-edge logic of a push observer (`FirstProductLogic`). */
  class FirstProductLogic {
    var last: Product?

    constructor ()
      ensures last == null
    {
      last := null;
    }

    /**
     * Whether a report is due (`trigger`): the positions are brought up
     * to `now`; a report is due when a first product is ready and is not
     * the product reported last, which is then remembered; when none is
     * ready the memory is cleared.
     */
    method Trigger(state: HolderState, now: real, speed: real) returns (fired: bool)
      requires state.Valid()
      modifies this, state`phyPos, state`lastTime
      ensures state.Valid() && state.prod == old(state.prod)
      ensures state.phyPos == Settle(old(state.phyPos), 0.0, now - old(state.lastTime), speed)
      ensures state.lastTime == now
      ensures state.IsFirstReady() ==> (fired, last) == Edge(true, state.prod[0], old(last))
      ensures !state.IsFirstReady() && |state.prod| > 0 ==> (fired, last) == Edge(false, state.prod[0], old(last))
      ensures !state.IsFirstReady() ==> !fired && last == null
    {
      state.UpdatePositions(now, speed);
      if state.IsFirstReady() {
        var first := state.GetFirst();
        if last == null || first.value != last {
          last := first.value;
          return true;
        } else {
          return false;
        }
      } else {
        last := null;
        return false;
      }
    }

    /**
     * Whether the reported product has left (`is_gone`): nothing is
     * remembered, or the holder is not empty and its head is another
     * product.
     */
    predicate IsGone(state: HolderState)
      reads this, state
      requires state.Valid()
      ensures last == null ==> IsGone(state)
      ensures last != null && state.GetFirst().Ok? ==> (IsGone(state) <==> state.GetFirst().value != last)
      ensures last != null && state.GetFirst().Err? ==> !IsGone(state)
    {
      last == null || (|state.prod| > 0 && last != state.prod[0])
    }

    /**
     * The report of the remembered product (`response`): from the
     * observer `name`, event `eventName`, located at the observed holder,
     * dated `now`, with the parameters the observer is configured for. An
     * AttributeError when a parameter needs a product and none is
     * remembered.
     */
    function Response(name: string, eventName: string, location: string, now: real,
                      observeType: bool, identify: bool, observeAbsence: bool): (r: Result<Message>)
      reads this, last
      ensures r.Err? <==> last == null && (observeType || identify)
      ensures r.Err? ==> r.error == AttributeError
      ensures r.Ok? && last != null ==>
        r.value == Report(name, eventName, location, Some(now), "", PushParams(last, observeType, identify, observeAbsence))
      ensures r.Ok? && last == null ==>
        r.value == Report(name, eventName, location, Some(now), "", if observeAbsence then map["present" := VBool(true)] else map[])
    {
      if last == null then
        if observeType || identify then Err(AttributeError)
        else Ok(Report(name, eventName, location, Some(now), "", if observeAbsence then map["present" := VBool(true)] else map[]))
      else Ok(Report(name, eventName, location, Some(now), "", PushParams(last, observeType, identify, observeAbsence)))
    }
  }

  /** A push observer of one holder, with its configuration. */
  class PushObserver {
    const logic: FirstProductLogic
    var name: string
    var eventName: string
    var holderName: string
    var observeType: bool
    var identify: bool
    var observeAbsence: bool
    var lastReport: Option<Message>

    constructor (name: string, eventName: string, holderName: string, observeType: bool, identify: bool, observeAbsence: bool)
      ensures this.name == name && this.eventName == (if eventName != "" then eventName else name)
      ensures this.holderName == holderName
      ensures this.observeType == observeType && this.identify == identify && this.observeAbsence == observeAbsence
      ensures fresh(logic) && logic.last == null && lastReport == None
    {
      this.name := name;
      this.eventName := if eventName != "" then eventName else name;
      this.holderName := holderName;
      this.observeType := observeType;
      this.identify := identify;
      this.observeAbsence := observeAbsence;
      logic := new FirstProductLogic();
      lastReport := None;
    }

    /**
     * One activation of the observer at `now` (one turn of its process):
     * a rising edge sends the report of the new head, which is kept when
     * absences are observed; otherwise, when a kept report exists and the
     * head is no longer ready, that report is sent again with 'present'
     * set to false, and forgotten.
     */
    method Step(state: HolderState, now: real, speed: real) returns (sent: Option<Message>)
      requires state.Valid()
      modifies logic, this`lastReport, state`phyPos, state`lastTime
      ensures state.Valid() && state.prod == old(state.prod)
      ensures state.phyPos == Settle(old(state.phyPos), 0.0, now - old(state.lastTime), speed)
      ensures state.IsFirstReady() && state.prod[0] != old(logic.last) ==>
        sent == Some(Report(name, eventName, holderName, Some(now), "", PushParams(state.prod[0], observeType, identify, observeAbsence))) &&
        lastReport == (if observeAbsence then sent else old(lastReport))
      ensures !state.IsFirstReady() && old(lastReport).Some? ==>
        var rp := old(lastReport).value;
        sent == Some(rp.(how := rp.how["present" := VBool(false)])) && lastReport == None
      ensures !state.IsFirstReady() && old(lastReport).None? ==> sent == None && lastReport == None
      ensures state.IsFirstReady() && state.prod[0] == old(logic.last) ==> sent == None && lastReport == old(lastReport)
    {
      var fired := logic.Trigger(state, now, speed);
      if !fired {
        if lastReport.Some? && logic.IsGone(state) {
          var rp := lastReport.value;
          sent := Some(rp.(how := rp.how["present" := VBool(false)]));
          lastReport := None;
        } else {
          sent := None;
        }
      } else {
        var reports := logic.Response(name, eventName, holderName, now, observeType, identify, observeAbsence);
        sent := Some(reports.value);
        if observeAbsence {
          lastReport := sent;
        }
      }
    }
  }

  /** In spaced positions every product is strictly behind the ones ahead of it. */
  lemma {:induction false} SpacedIncreasing(pos: seq<real>, block: real, j: nat, i: nat)
    requires Spaced(pos, block)
    requires j < i < |pos|
    ensures pos[j] + 1.0 <= pos[i]
    decreases i - j
  {
    if j + 1 < i {
      SpacedIncreasing(pos, block, j + 1, i);
    }
  }

  /** In spaced positions, no product ahead of the i-th one shares its position. */
  lemma NotAhead(pos: seq<real>, i: nat)
    requires Spaced(pos, 0.0) && i < |pos|
    ensures pos[i] !in pos[..i]
  {
    forall j | 0 <= j < i
      ensures pos[j] != pos[i]
    {
      SpacedIncreasing(pos, 0.0, j, i);
    }
  }

  /** What a pull report tells about a product: its identity, or its type. */
  function Describe(p: Product, identity: bool): Value
    reads p
  {
    if identity then VNum(p.pid as real) else VStr(p.productType)
  }

  /**
   * `m` maps exactly the occupied positions, each to the identity (or
   * the type) of the product there.
   */
  ghost predicate ByPosition(m: map<real, Value>, pos: seq<real>, prods: seq<Product>, identity: bool)
    reads prods
  {
    |pos| == |prods| &&
    (forall x :: x in m <==> x in pos) &&
    forall i :: 0 <= i < |pos| ==> pos[i] in m && m[pos[i]] == Describe(prods[i], identity)
  }

  /**
   * The dict built by the loop of `PositionLogic.response`: each
   * position of `pos` mapped to the identity (or type) of the product
   * at the same rank.
   */
  method IndexByPosition(pos: seq<real>, prods: seq<Product>, identity: bool) returns (m: map<real, Value>)
    requires Spaced(pos, 0.0) && |prods| == |pos|
    ensures ByPosition(m, pos, prods, identity)
  {
    m := map[];
    var i := 0;
    while i < |pos|
      invariant 0 <= i <= |pos|
      invariant forall x :: x in m <==> x in pos[..i]
      invariant forall j :: 0 <= j < i ==> pos[j] in m && m[pos[j]] == Describe(prods[j], identity)
    {
      NotAhead(pos, i);
      assert pos[..i + 1] == pos[..i] + [pos[i]];
      m := m[pos[i] := Describe(prods[i], identity)];
      i := i + 1;
    }
    assert pos[..i] == pos;
  }

  /**
   * The answer of a pull observer to a query (`PositionLogic.response`)
   * at `now`: the positions are brought up to date and the report maps
   * every occupied position to the identity and to the type of the
   * product there.
   */
  method PositionResponse(state: HolderState, now: real, speed: real,
                          name: string, eventName: string, location: string) returns (r: Message)
    requires state.Valid()
    modifies state`phyPos, state`lastTime
    ensures state.Valid() && state.prod == old(state.prod)
    ensures state.phyPos == Settle(old(state.phyPos), 0.0, now - old(state.lastTime), speed)
    ensures r.kind == ReportKind && r.who == name && r.what == eventName && r.when == Some(now)
    ensures r.where == (if location != "" then location else name) && r.why == ""
    ensures r.how.Keys == {"ID_by_position", "Type_by_position"}
    ensures r.how["ID_by_position"].VPosDict? && r.how["Type_by_position"].VPosDict?
    ensures ByPosition(r.how["ID_by_position"].byPosition, state.phyPos, state.prod, true)
    ensures ByPosition(r.how["Type_by_position"].byPosition, state.phyPos, state.prod, false)
  {
    var pairs := state.Positions(now, speed);
    var how := PositionParams(state.phyPos, state.prod);
    r := Report(name, eventName, location, Some(now), "", how);
  }

  /**
   * The two dicts of a pull report: every occupied position mapped to
   * the identity, and to the type, of the product there.
   */
  method PositionParams(pos: seq<real>, prods: seq<Product>) returns (how: map<string, Value>)
    requires Spaced(pos, 0.0) && |prods| == |pos|
    ensures how.Keys == {"ID_by_position", "Type_by_position"}
    ensures how["ID_by_position"].VPosDict? && how["Type_by_position"].VPosDict?
    ensures ByPosition(how["ID_by_position"].byPosition, pos, prods, true)
    ensures ByPosition(how["Type_by_position"].byPosition, pos, prods, false)
  {
    var ids := IndexByPosition(pos, prods, true);
    var types := IndexByPosition(pos, prods, false);
    how := map["ID_by_position" := VPosDict(ids), "Type_by_position" := VPosDict(types)];
    assert how["ID_by_position"].byPosition == ids;
    assert how["Type_by_position"].byPosition == types;
  }
}
