/**
 * A holder: a queue of products with a capacity and a speed, whose
 * occupation is monitored over time.
 *
 * Inserting a product is a process that may have to wait: while the
 * last product is still within one length of the entry of a full
 * holder, the insertion waits for the time a product needs to advance
 * one length and checks again. Each call of `PutProduct` below is one
 * such check, made at time `now`.
 */
module Holders {
  import opened Errors
  import opened Products
  import opened HolderStates
  import opened Plot

  /** What one insertion attempt did. */
  datatype PutStep =
    | Wait(until: real)   // the holder is full: try again at `until`
    | Inserted            // the product is in the holder

  /**
   * Whether an insertion must wait: the holder is bounded and moving,
   * and its last product has not yet left the entry slot.
   */
  predicate MustWait(capacity: int, speed: real, lastPosition: real)
  {
    capacity > 0 && lastPosition >= (capacity - 1) as real && speed != 0.0
  }

  /**
   * Settled positions of n products put the last one at least n - 1
   * lengths from the exit, so a bounded moving holder that need not
   * wait holds fewer products than its capacity.
   */
  lemma RoomLeft(settled: seq<real>, capacity: int, speed: real)
    requires Spaced(settled, 0.0)
    requires !MustWait(capacity, speed, LastOf(settled))
    ensures capacity > 0 && speed != 0.0 ==> |settled| < capacity
  {
    if |settled| > 0 {
      LastFloor(settled);
    }
  }

  /** The positions of a holder brought forward by `elapsed` time units. */
  function Settled(pos: seq<real>, elapsed: real, speed: real): (r: seq<real>)
    ensures |r| == |pos| && Spaced(r, 0.0)
  {
    Settle(pos, 0.0, elapsed, speed)
  }

  /** The position of the last product, 0 for an empty holder. */
  function LastOf(pos: seq<real>): real
  {
    if |pos| == 0 then 0.0 else pos[|pos| - 1]
  }

  /** Where a product enters: `capacity - 1` lengths out, 0 when unbounded. */
  function EntryPosition(capacity: int): real
  {
    if capacity != 0 then (capacity - 1) as real else 0.0
  }

  class Holder {
    const internal: HolderState
    const monitor: Monitor
    var capacity: int
    var speed: real

    predicate Valid()
      reads this, internal, monitor
    {
      internal.Valid() && monitor.Valid()
    }

    constructor (capacity: int, speed: real)
      ensures Valid()
      ensures this.capacity == capacity && this.speed == speed
      ensures fresh(internal) && fresh(monitor)
      ensures internal.prod == [] && internal.phyPos == [] && internal.lastTime == 0.0
      ensures monitor.times == [0.0] && monitor.values == [0.0]
    {
      this.capacity := capacity;
      this.speed := speed;
      internal := new HolderState();
      monitor := new Monitor();
    }

    /**
     * One attempt to insert `product` at the tail (`put_product`) at time
     * `now`: the positions are brought up to date; if the holder must
     * wait, the attempt ends with the date of the next one, one product
     * length later; otherwise the product enters, its move into the
     * holder named `fullname` is recorded, and the new occupation is
     * observed. A bounded moving holder never exceeds its capacity.
     */
    method PutProduct(product: Product, now: real, fullname: string) returns (r: PutStep)
      requires Valid()
      modifies internal`phyPos, internal`prod, internal`lastTime, monitor
      modifies ({product} + product.components.Values)`spaceHistory
      ensures Valid()
      ensures internal.lastTime == now
      ensures r.Wait? <==> MustWait(capacity, speed, LastOf(Settled(old(internal.phyPos), now - old(internal.lastTime), speed)))
      ensures r.Wait? ==> r.until == now + 1.0 / speed
      ensures r.Wait? ==> internal.phyPos == Settled(old(internal.phyPos), now - old(internal.lastTime), speed)
      ensures r.Wait? ==> internal.prod == old(internal.prod)
      ensures r.Wait? ==> monitor.times == old(monitor.times) && monitor.values == old(monitor.values)
      ensures r.Inserted? ==> internal.prod == old(internal.prod) + [product]
      ensures r.Inserted? ==>
        internal.phyPos == Settle(Settled(old(internal.phyPos), now - old(internal.lastTime), speed) + [EntryPosition(capacity)], 0.0, 0.0, speed)
      ensures r.Inserted? ==> monitor.times == old(monitor.times) + [now]
      ensures r.Inserted? ==> monitor.values == old(monitor.values) + [|internal.prod| as real]
      ensures r == Inserted ==> forall q :: q in old({product} + product.components.Values) ==>
        q.spaceHistory == old(q.spaceHistory) + Repeat((now, fullname), Records(product, old(product.components), old(product.components).Keys, q))
      ensures r == Inserted && capacity > 0 && speed != 0.0 ==> |internal.prod| <= capacity
    {
      internal.UpdatePositions(now, speed);
      var pLast := internal.Last();
      assert pLast == LastOf(internal.phyPos);
      if MustWait(capacity, speed, pLast) {
        return Wait(now + 1.0 / speed);
      }
      RoomLeft(internal.phyPos, capacity, speed);
      Enter(product, now, fullname);
      r := Inserted;
    }

    /**
     * The insertion branch of `put_product`, on positions already brought
     * up to `now`: the product enters at the entry position, its move is
     * recorded and the new occupation is observed.
     */
    method Enter(product: Product, now: real, fullname: string)
      requires Valid() && internal.lastTime == now
      modifies internal`phyPos, internal`prod, internal`lastTime, monitor
      modifies ({product} + product.components.Values)`spaceHistory
      ensures Valid()
      ensures internal.lastTime == now
      ensures internal.prod == old(internal.prod) + [product]
      ensures internal.phyPos == Settle(old(internal.phyPos) + [EntryPosition(capacity)], 0.0, 0.0, speed)
      ensures monitor.times == old(monitor.times) + [now]
      ensures monitor.values == old(monitor.values) + [|internal.prod| as real]
      ensures forall q :: q in old({product} + product.components.Values) ==>
        q.spaceHistory == old(q.spaceHistory) + Repeat((now, fullname), Records(product, old(product.components), old(product.components).Keys, q))
    {
      internal.Append(product, now, speed, capacity);
      assert now - now == 0.0;
      product.RecordPosition(now, fullname);
      monitor.Observe(now, |internal.prod| as real);
    }

    /**
     * Take the product at the head (`fetch_product`): an EmulicaError
     * when the positions of the last update show none at the exit;
     * otherwise the product popped, and the new occupation is observed.
     */
    method FetchProduct(now: real) returns (r: Result<Product>)
      requires Valid()
      modifies internal`phyPos, internal`prod, internal`lastTime, monitor
      ensures Valid()
      ensures !old(internal.IsFirstReady()) ==>
        r == Err(EmulicaError("no product ready in this holder")) &&
        internal.phyPos == old(internal.phyPos) && internal.prod == old(internal.prod) &&
        internal.lastTime == old(internal.lastTime) &&
        monitor.times == old(monitor.times) && monitor.values == old(monitor.values)
      ensures old(internal.IsFirstReady()) && now >= old(internal.lastTime) && speed >= 0.0 ==>
        r == Ok(old(internal.prod)[0]) && internal.prod == old(internal.prod)[1..] &&
        monitor.times == old(monitor.times) + [now] &&
        monitor.values == old(monitor.values) + [|internal.prod| as real]
    {
      if !internal.IsFirstReady() {
        return Err(EmulicaError("no product ready in this holder"));
      }
      ghost var settled := Settle(internal.phyPos, 0.0, now - internal.lastTime, speed);
      if now >= internal.lastTime && speed >= 0.0 {
        ReadyThenPopSucceeds(internal.phyPos, internal.lastTime, now, speed);
        assert |settled| > 0 && settled[0] < Epsilon;
      }
      r := internal.Pop(now, speed);
      if r.Ok? {
        monitor.Observe(now, |internal.prod| as real);
      }
    }

    /** The products in the holder, head first (`get_products`). */
    function GetProducts(): (ps: seq<Product>)
      reads this, internal, monitor
      requires Valid()
      ensures |ps| == internal.Len()
      ensures ps == internal.prod
    {
      internal.prod
    }
  }
}
