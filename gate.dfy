/**
 * The admission gate of the bounded parallel map (class `Mutex` in src/index.ts):
 * a limit `max`, a counter `current` and a FIFO queue `q` of suspended callers.
 * A suspended caller's resolve callback is represented by the caller's id.
 */
module Gate {
  import opened Wrappers

  class Mutex {
    const max: int
    var current: int
    var q: seq<nat>

    /** A fresh gate: nobody admitted, nobody waiting. The limit is not checked here. */
    constructor (max: int)
      ensures this.max == max && current == 0 && q == []
    {
      this.max := max;
      current := 0;
      q := [];
    }

    /**
     * `block()`: below the limit the caller is admitted at once and counted;
     * otherwise it is parked at the tail of the queue and the counter is left alone.
     */
    method Block(id: nat) returns (admitted: bool)
      modifies this
      ensures admitted <==> old(current) < max
      ensures admitted ==> current == old(current) + 1 && q == old(q)
      ensures !admitted ==> current == old(current) && q == old(q) + [id]
    {
      if current < max {
        current := current + 1;
        admitted := true;
      } else {
        q := q + [id];
        admitted := false;
      }
    }

    /**
     * `free()`: the counter always drops by one, even when the slot is handed
     * straight to the head of the queue, which is woken and removed; the rest
     * of the queue keeps its order.
     */
    method Free() returns (woken: Option<nat>)
      modifies this
      ensures current == old(current) - 1
      ensures old(q) == [] ==> woken == None && q == []
      ensures old(q) != [] ==> woken == Some(old(q)[0]) && q == old(q)[1..]
    {
      current := current - 1;
      if q == [] {
        woken := None;
      } else {
        woken := Some(q[0]);
        q := q[1..];
      }
    }
  }

  /**
   * The gate bounds its holders only when every `Block` precedes every `Free`.
   * Here with a limit of one: caller 0 is admitted, caller 1 queues, caller 0
   * frees and hands its slot to caller 1 (the counter drops to 0 without being
   * raised again), and a late `Block` by caller 2 is then admitted while
   * caller 1 still holds the only slot.
   */
  method LateBlockOverAdmits() returns (first: bool, second: bool, woken: Option<nat>, late: bool)
    ensures first && !second && woken == Some(1)
    ensures late
  {
    var m := new Mutex(1);
    first := m.Block(0);
    second := m.Block(1);
    woken := m.Free();
    late := m.Block(2);
  }
}
