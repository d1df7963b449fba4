/**
 * The activity trace of an actuator: a list of (start, end, state)
 * entries, appended to as activities close and read (and edited in place)
 * by the Gantt chart.
 */
module Traces {

  /** One closed activity: it ran in state `state` from `start` to `end`. */
  datatype TraceEntry = TraceEntry(start: real, end: real, state: string)

  /**
   * `s` without its first element equal to `x` (Python's `list.remove`);
   * `s` itself when there is none.
   */
  function RemoveFirst<T(==)>(s: seq<T>, x: T): (r: seq<T>)
    ensures x in s ==> |r| == |s| - 1
    ensures x !in s ==> r == s
    ensures multiset(r) == multiset(s) - multiset{x}
  {
    if s == [] then []
    else
      assert s == [s[0]] + s[1..];
      if s[0] == x then s[1..]
      else [s[0]] + RemoveFirst(s[1..], x)
  }

  /** A Python list of trace entries, shared between its owner and readers. */
  class TraceList {
    var items: seq<TraceEntry>

    constructor ()
      ensures items == []
    {
      items := [];
    }

    /** `list.append`. */
    method Append(e: TraceEntry)
      modifies this
      ensures items == old(items) + [e]
    {
      items := items + [e];
    }

    /** `list.remove`: the first entry equal to `e` goes. */
    method Remove(e: TraceEntry)
      modifies this
      ensures items == RemoveFirst(old(items), e)
    {
      items := RemoveFirst(items, e);
    }
  }
}
