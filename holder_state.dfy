/**
 * The internal state of a holder: a queue of products, each with a
 * physical position (its distance to the exit, in product lengths).
 *
 * Positions are recomputed lazily from the time elapsed since the last
 * update: every product advances by `elapsed * speed`, but never past
 * the exit (position 0) nor closer than one length to the product ahead
 * of it. A holder whose speed is 0 moves every product to the front at
 * once. A product is ready at the exit when its position is below 1e-9.
 */
module HolderStates {
  import opened Errors
  import opened Products

  /** Positions below this value are at the exit. */
  const Epsilon: real := 0.000000001

  function Max(a: real, b: real): (m: real)
    ensures m >= a && m >= b && (m == a || m == b)
  {
    if a >= b then a else b
  }

  /**
   * How far a product at `position` moves in `elapsed` time units: the
   * whole distance to the exit when the speed is 0.
   */
  function Progress(position: real, elapsed: real, speed: real): real
  {
    if speed != 0.0 then elapsed * speed else position
  }

  /**
   * The positions after `elapsed` time units, front to back; `block` is
   * the closest a product may come to the exit (one length behind the
   * product ahead of it, 0 for the first one).
   */
  function Settle(pos: seq<real>, block: real, elapsed: real, speed: real): (r: seq<real>)
    ensures |r| == |pos|
    ensures Spaced(r, block)
  {
    if pos == [] then []
    else
      var p := Max(block, pos[0] - Progress(pos[0], elapsed, speed));
      [p] + Settle(pos[1..], p + 1.0, elapsed, speed)
  }

  /**
   * Products are at or behind `block` and each one is at least one
   * length behind the one ahead of it.
   */
  predicate Spaced(pos: seq<real>, block: real)
  {
    (|pos| > 0 ==> pos[0] >= block) &&
    forall i :: 0 <= i < |pos| - 1 ==> pos[i + 1] >= pos[i] + 1.0
  }

  /** In spaced positions the i-th product is at least i lengths behind `block`. */
  lemma {:induction false} SpacedFloor(pos: seq<real>, block: real, i: nat)
    requires Spaced(pos, block)
    requires i < |pos|
    ensures pos[i] >= block + i as real
  {
    if i > 0 {
      SpacedFloor(pos, block, i - 1);
    }
  }

  /** A zero speed moves every product as far forward as spacing allows. */
  lemma {:induction false} SettleAtZeroSpeed(pos: seq<real>, block: real, elapsed: real, i: nat)
    requires block >= 0.0
    requires i < |pos|
    ensures Settle(pos, block, elapsed, 0.0)[i] == block + i as real
  {
    var p := Max(block, pos[0] - Progress(pos[0], elapsed, 0.0));
    assert p == block;
    assert Settle(pos, block, elapsed, 0.0) == [p] + Settle(pos[1..], p + 1.0, elapsed, 0.0);
    if i > 0 {
      SettleAtZeroSpeed(pos[1..], p + 1.0, elapsed, i - 1);
    }
  }

  /**
   * Spaced positions are left alone by a settle at the same instant: an
   * update with no elapsed time changes nothing (for a moving holder).
   */
  lemma {:induction false} SettleStable(pos: seq<real>, block: real, speed: real)
    requires Spaced(pos, block)
    requires speed != 0.0
    ensures Settle(pos, block, 0.0, speed) == pos
  {
    if pos != [] {
      assert 0.0 * speed == 0.0;
      assert Spaced(pos[1..], pos[0] + 1.0) by {
        if |pos| > 1 {
          assert pos[1] >= pos[0] + 1.0;
        }
        forall i | 0 <= i < |pos[1..]| - 1
          ensures pos[1..][i + 1] >= pos[1..][i] + 1.0
        {
          assert pos[1..][i] == pos[i + 1];
        }
      }
      SettleStable(pos[1..], pos[0] + 1.0, speed);
    }
  }

  /** Updating twice at the same instant is the same as updating once. */
  lemma SettleIdempotent(pos: seq<real>, block: real, elapsed: real, speed: real)
    requires block >= 0.0
    ensures Settle(Settle(pos, block, elapsed, speed), block, 0.0, speed) == Settle(pos, block, elapsed, speed)
  {
    var r := Settle(pos, block, elapsed, speed);
    if speed != 0.0 {
      SettleStable(r, block, speed);
    } else {
      forall i | 0 <= i < |r|
        ensures Settle(r, block, 0.0, 0.0)[i] == r[i]
      {
        SettleAtZeroSpeed(r, block, 0.0, i);
        SettleAtZeroSpeed(pos, block, elapsed, i);
      }
    }
  }

  /**
   * Products never move backwards: when time runs forward on a holder
   * whose speed is not negative and whose positions are spaced, every
   * product ends at or ahead of where it was.
   */
  lemma {:induction false} SettleAdvances(pos: seq<real>, block: real, elapsed: real, speed: real)
    requires Spaced(pos, block) && block >= 0.0
    requires elapsed >= 0.0 && speed >= 0.0
    ensures forall i :: 0 <= i < |pos| ==> Settle(pos, block, elapsed, speed)[i] <= pos[i]
  {
    if pos != [] {
      var p := Max(block, pos[0] - Progress(pos[0], elapsed, speed));
      assert elapsed * speed >= 0.0;
      assert p <= pos[0];
      assert Spaced(pos[1..], p + 1.0) by {
        if |pos| > 1 {
          assert pos[1] >= pos[0] + 1.0;
        }
        forall i | 0 <= i < |pos[1..]| - 1
          ensures pos[1..][i + 1] >= pos[1..][i] + 1.0
        {
          assert pos[1..][i] == pos[i + 1];
        }
      }
      SettleAdvances(pos[1..], p + 1.0, elapsed, speed);
      var r := Settle(pos, block, elapsed, speed);
      assert r == [p] + Settle(pos[1..], p + 1.0, elapsed, speed);
      forall i | 0 <= i < |pos|
        ensures r[i] <= pos[i]
      {
        if i > 0 {
          assert r[i] == Settle(pos[1..], p + 1.0, elapsed, speed)[i - 1];
        }
      }
    }
  }

  /**
   * A product seen ready at the exit is still ready after any later
   * update of a holder whose speed is not negative: the check made by
   * `fetch_product` before it pops stays true through the update `pop`
   * performs first.
   */
  lemma ReadyStaysReady(pos: seq<real>, elapsed: real, speed: real)
    requires |pos| > 0 && pos[0] < Epsilon
    requires elapsed >= 0.0 && speed >= 0.0
    ensures Settle(pos, 0.0, elapsed, speed)[0] < Epsilon
  {
    assert elapsed * speed >= 0.0;
  }

  /**
   * `observation_delay` is exactly the time the first product needs to
   * reach the exit: settling a moving holder that long brings it there.
   */
  lemma DelayReachesExit(pos: seq<real>, speed: real)
    requires |pos| > 0 && speed != 0.0
    ensures pos[0] >= 0.0 ==> Settle(pos, 0.0, pos[0] / speed, speed)[0] == 0.0
  {
    assert pos[0] / speed * speed == pos[0];
  }

  /** In spaced positions the last of n products is at least n - 1 lengths out. */
  lemma LastFloor(pos: seq<real>)
    requires |pos| > 0
    ensures Spaced(pos, 0.0) ==> pos[|pos| - 1] >= (|pos| - 1) as real
  {
    if Spaced(pos, 0.0) {
      SpacedFloor(pos, 0.0, |pos| - 1);
    }
  }

  /** 0, 1, ..., n - 1 as positions. */
  function Ranks(n: nat): (r: seq<real>)
    ensures |r| == n
    ensures forall i :: 0 <= i < n ==> r[i] == i as real
  {
    if n == 0 then [] else Ranks(n - 1) + [(n - 1) as real]
  }

  class HolderState {
    var lastTime: real
    var phyPos: seq<real>
    var prod: seq<Product>

    /** One position per product. */
    predicate Valid()
      reads this
    {
      |phyPos| == |prod|
    }

    constructor ()
      ensures Valid()
      ensures lastTime == 0.0 && phyPos == [] && prod == []
    {
      lastTime := 0.0;
      phyPos := [];
      prod := [];
    }

    /**
     * Bring the positions up to time `now` (`update_positions`) for a
     * holder moving at `speed`.
     */
    method UpdatePositions(now: real, speed: real)
      modifies this`phyPos, this`lastTime
      ensures phyPos == Settle(old(phyPos), 0.0, now - old(lastTime), speed)
      ensures lastTime == now
    {
      var elapsed := now - lastTime;
      var block := 0.0;
      var settled := [];
      var i := 0;
      while i < |phyPos|
        invariant 0 <= i <= |phyPos|
        invariant settled + Settle(phyPos[i..], block, elapsed, speed) == Settle(phyPos, 0.0, elapsed, speed)
      {
        var oldPosition := phyPos[i];
        var progress := if speed != 0.0 then elapsed * speed else oldPosition;
        var newPosition := Max(block, oldPosition - progress);
        assert phyPos[i..][1..] == phyPos[i + 1..];
        settled := settled + [newPosition];
        block := newPosition + 1.0;
        i := i + 1;
      }
      assert phyPos[i..] == [];
      phyPos := settled;
      lastTime := now;
    }

    /**
     * The (position, product) pairs at time `now` (`positions`), after
     * the positions are brought up to date.
     */
    method Positions(now: real, speed: real) returns (r: seq<(real, Product)>)
      requires Valid()
      modifies this`phyPos, this`lastTime
      ensures Valid()
      ensures phyPos == Settle(old(phyPos), 0.0, now - old(lastTime), speed) && lastTime == now
      ensures |r| == |prod|
      ensures forall i :: 0 <= i < |r| ==> r[i] == (phyPos[i], prod[i])
    {
      UpdatePositions(now, speed);
      r := [];
      var i := 0;
      while i < |prod|
        invariant 0 <= i <= |prod|
        invariant |r| == i
        invariant forall j :: 0 <= j < i ==> r[j] == (phyPos[j], prod[j])
      {
        r := r + [(phyPos[i], prod[i])];
        i := i + 1;
      }
    }

    /** The position of the last product, 0 when the holder is empty (`last`). */
    function Last(): (p: real)
      reads this
      ensures |phyPos| == 0 ==> p == 0.0
      ensures Spaced(phyPos, 0.0) ==> p >= (|phyPos| - 1) as real
    {
      if |phyPos| != 0 then
        LastFloor(phyPos);
        phyPos[|phyPos| - 1]
      else 0.0
    }

    /**
     * How long until the first product reaches the exit
     * (`observation_delay`): 0 for an empty or a still holder.
     */
    function ObservationDelay(speed: real): (d: real)
      reads this
      requires Valid()
      ensures speed == 0.0 || |prod| == 0 ==> d == 0.0
      ensures speed != 0.0 && |prod| > 0 && phyPos[0] >= 0.0 ==> Settle(phyPos, 0.0, d, speed)[0] == 0.0
    {
      if speed == 0.0 || |prod| == 0 then 0.0
      else
        DelayReachesExit(phyPos, speed);
        phyPos[0] / speed
    }

    /**
     * Add a product at the entry (`append`): it starts `capacity - 1`
     * lengths from the exit (0 for an unbounded holder) and the
     * positions are brought up to date.
     */
    method Append(product: Product, now: real, speed: real, capacity: int)
      requires Valid()
      modifies this`phyPos, this`prod, this`lastTime
      ensures Valid()
      ensures prod == old(prod) + [product]
      ensures phyPos == Settle(old(phyPos) + [if capacity != 0 then (capacity - 1) as real else 0.0], 0.0, now - old(lastTime), speed)
      ensures lastTime == now
    {
      var initial := if capacity != 0 then (capacity - 1) as real else 0.0;
      phyPos := phyPos + [initial];
      prod := prod + [product];
      UpdatePositions(now, speed);
    }

    /**
     * Fill the holder before the emulation starts (`set_content`): the
     * products are appended at positions 0, 1, 2, ..., without regard to
     * what the holder already holds.
     */
    method SetContent(products: seq<Product>)
      requires Valid()
      modifies this`phyPos, this`prod
      ensures Valid()
      ensures prod == old(prod) + products
      ensures phyPos == old(phyPos) + Ranks(|products|)
    {
      var pos := 0;
      while pos < |products|
        invariant 0 <= pos <= |products|
        invariant prod == old(prod) + products[..pos]
        invariant phyPos == old(phyPos) + Ranks(pos)
      {
        assert products[..pos + 1] == products[..pos] + [products[pos]];
        phyPos := phyPos + [pos as real];
        prod := prod + [products[pos]];
        pos := pos + 1;
      }
      assert products[..pos] == products;
    }

    /**
     * Take the first product out (`pop`): the positions are updated,
     * the first product leaves if it is at the exit, and the positions
     * are updated again. An empty holder is an IndexError; a first
     * product not at the exit leaves nothing to return
     * (UnboundLocalError) and the holder unchanged but for the updates.
     */
    method Pop(now: real, speed: real) returns (r: Result<Product>)
      requires Valid()
      modifies this`phyPos, this`prod, this`lastTime
      ensures Valid()
      ensures lastTime == now
      ensures var s := Settle(old(phyPos), 0.0, now - old(lastTime), speed);
        if |s| == 0 then r == Err(IndexError) && phyPos == s && prod == old(prod)
        else if s[0] < Epsilon then
          r == Ok(old(prod)[0]) && prod == old(prod)[1..] && phyPos == Settle(s[1..], 0.0, 0.0, speed)
        else
          r == Err(UnboundLocalError) && prod == old(prod) && phyPos == Settle(s, 0.0, 0.0, speed)
    {
      UpdatePositions(now, speed);
      if |phyPos| == 0 {
        return Err(IndexError);
      }
      var found := false;
      var product: Product? := null;
      if phyPos[0] < Epsilon {
        product := prod[0];
        prod := prod[1..];
        phyPos := phyPos[1..];
        found := true;
      }
      UpdatePositions(now, speed);
      if found {
        r := Ok(product);
      } else {
        r := Err(UnboundLocalError);
      }
    }

    /** The number of products (`__len__`). */
    function Len(): (n: nat)
      reads this
      ensures n == |prod|
    {
      |prod|
    }

    /** Whether a first product is at the exit (`is_first_ready`). */
    predicate IsFirstReady()
      reads this
      requires Valid()
      ensures IsFirstReady() ==> |prod| > 0 && GetFirst() == Ok(prod[0]) && phyPos[0] < Epsilon
      ensures prod == [] ==> !IsFirstReady()
    {
      |prod| > 0 && phyPos[0] < Epsilon
    }

    /** The first product (`get_first`); IndexError when the holder is empty. */
    function GetFirst(): (r: Result<Product>)
      reads this
      ensures r.Ok? <==> |prod| > 0
      ensures r.Ok? ==> r.value == prod[0]
      ensures r.Err? ==> r.error == IndexError
    {
      if |prod| > 0 then Ok(prod[0]) else Err(IndexError)
    }
  }

  /**
   * A pop that follows a successful readiness check succeeds: if the
   * first product was at the exit at the last update and time has moved
   * forward on a holder whose speed is not negative, the update inside
   * `pop` keeps it there, so `pop` returns it.
   */
  lemma ReadyThenPopSucceeds(pos: seq<real>, lastTime: real, now: real, speed: real)
    requires |pos| > 0 && pos[0] < Epsilon
    requires now >= lastTime && speed >= 0.0
    ensures var s := Settle(pos, 0.0, now - lastTime, speed); |s| > 0 && s[0] < Epsilon
  {
    ReadyStaysReady(pos, now - lastTime, speed);
  }

  /**
   * The second update inside `pop` happens at the same instant: on a
   * moving holder it leaves the remaining products where they were; on
   * a still holder they end at 0, 1, 2, ...
   */
  lemma PopSecondUpdate(pos: seq<real>, elapsed: real, speed: real)
    requires |pos| > 0
    ensures var s := Settle(pos, 0.0, elapsed, speed);
      speed != 0.0 ==> Settle(s[1..], 0.0, 0.0, speed) == s[1..]
    ensures var s := Settle(pos, 0.0, elapsed, speed);
      speed == 0.0 ==> forall i :: 0 <= i < |s| - 1 ==> Settle(s[1..], 0.0, 0.0, speed)[i] == i as real
  {
    var s := Settle(pos, 0.0, elapsed, speed);
    assert Spaced(s[1..], 0.0) by {
      if |s| > 1 {
        assert s[1] >= s[0] + 1.0;
      }
      forall i | 0 <= i < |s[1..]| - 1
        ensures s[1..][i + 1] >= s[1..][i] + 1.0
      {
        assert s[1..][i] == s[i + 1];
      }
    }
    if speed != 0.0 {
      SettleStable(s[1..], 0.0, speed);
    } else {
      forall i | 0 <= i < |s| - 1
        ensures Settle(s[1..], 0.0, 0.0, speed)[i] == i as real
      {
        SettleAtZeroSpeed(s[1..], 0.0, 0.0, i);
      }
    }
  }
}
