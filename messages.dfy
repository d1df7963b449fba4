/**
 * Requests and reports: the messages exchanged between the control
 * system and the emulation model, each with six fields (who, what,
 * when, where, how, why), and the stores (sockets) that carry them.
 */
module Messages {
  import opened Errors
  import opened Properties

  datatype Kind = RequestKind | ReportKind

  /**
   * A request (what an actor must do) or a report (what happened).
   * `when` is absent for "now"; `how` holds the parameters.
   */
  datatype Message = Message(
    kind: Kind,
    who: string,
    what: string,
    when: Option<real>,
    where: string,
    how: map<string, Value>,
    why: string)

  /**
   * A request for `actor` to perform `action` (`Request.__init__`): the
   * location defaults to the actor (an empty location counts as none),
   * the parameters to an empty table.
   */
  function Request(actor: string, action: string, location: string, date: Option<real>,
                   comment: string, params: map<string, Value>): (r: Message)
    ensures r.kind == RequestKind
    ensures r.who == actor && r.what == action && r.when == date && r.how == params && r.why == comment
    ensures r.where == (if location != "" then location else actor)
  {
    Message(RequestKind, actor, action, date, if location != "" then location else actor, params, comment)
  }

  /** A report of `event` by `source` (`Report.__init__`), with the same defaults. */
  function Report(source: string, event: string, location: string, date: Option<real>,
                  comment: string, params: map<string, Value>): (r: Message)
    ensures r.kind == ReportKind
    ensures r.who == source && r.what == event && r.when == date && r.how == params && r.why == comment
    ensures r.where == (if location != "" then location else source)
  {
    Message(ReportKind, source, event, date, if location != "" then location else source, params, comment)
  }

  /**
   * Message equality (`__eq__`): all six fields equal, whatever the
   * kind of either message.
   */
  predicate SameFields(a: Message, b: Message)
    ensures a == b ==> SameFields(a, b)
    ensures SameFields(a, b) && a.kind == b.kind ==> a == b
  {
    a.who == b.who && a.what == b.what && a.when == b.when &&
    a.where == b.where && a.how == b.how && a.why == b.why
  }

  /** Equality ignores only the kind: it is value equality up to the kind. */
  lemma SameFieldsIsEqualityUpToKind(a: Message, b: Message)
    ensures SameFields(a, b) <==> a.(kind := b.kind) == b
  {
  }

  /** A request and a report built from the same arguments compare equal. */
  lemma RequestEqualsReport(actor: string, action: string, location: string, date: Option<real>,
                            comment: string, params: map<string, Value>)
    ensures SameFields(Request(actor, action, location, date, comment, params),
                       Report(actor, action, location, date, comment, params))
    ensures Request(actor, action, location, date, comment, params) !=
            Report(actor, action, location, date, comment, params)
  {
  }

  /** Without an explicit location, a message is located at its sender. */
  lemma DefaultLocation(actor: string, action: string, date: Option<real>, comment: string,
                        params: map<string, Value>, location: string)
    ensures Request(actor, action, "", date, comment, params) ==
            Request(actor, action, actor, date, comment, params)
    ensures location != "" ==> Request(actor, action, location, date, comment, params).where == location
  {
  }

  /** Whether a message reports the actor idle. */
  predicate IsIdle(m: Message)
  {
    m.what == "idle"
  }

  /** The messages up to and including the first idle report, if any. */
  function UpToIdle(ms: seq<Message>): (r: seq<Message>)
    ensures |r| <= |ms|
  {
    if ms == [] then []
    else if IsIdle(ms[0]) then [ms[0]]
    else [ms[0]] + UpToIdle(ms[1..])
  }

  /**
   * What `UpToIdle` takes is a prefix in which only the last message may
   * be idle; it ends with an idle report when there is one, and it is
   * everything when there is none.
   */
  lemma {:induction false} UpToIdleIsIdlePrefix(ms: seq<Message>)
    ensures var r := UpToIdle(ms); |r| <= |ms| && r == ms[..|r|]
    ensures var r := UpToIdle(ms); forall k :: 0 <= k < |r| - 1 ==> !IsIdle(r[k])
    ensures (exists k :: 0 <= k < |ms| && IsIdle(ms[k])) ==> |UpToIdle(ms)| > 0 && IsIdle(UpToIdle(ms)[|UpToIdle(ms)| - 1])
    ensures (forall k :: 0 <= k < |ms| ==> !IsIdle(ms[k])) ==> UpToIdle(ms) == ms
    decreases |ms|
  {
    if ms != [] && !IsIdle(ms[0]) {
      UpToIdleIsIdlePrefix(ms[1..]);
      assert forall k :: 1 <= k < |ms| ==> ms[k] == ms[1..][k - 1];
    }
  }

  /** A first-in first-out store of messages (a socket). */
  class Store {
    var items: seq<Message>

    constructor ()
      ensures items == []
    {
      items := [];
    }

    /** Put a message at the back (`put`). */
    method Put(m: Message)
      modifies this
      ensures items == old(items) + [m]
    {
      items := items + [m];
    }
  }

  /**
   * Consume messages from `socket` until an idle report (`wait_idle`):
   * every message up to and including the first idle one is taken. When
   * there is none, the waiting process consumes everything and stays
   * blocked (`found` is false).
   */
  method WaitIdle(socket: Store) returns (consumed: seq<Message>, found: bool)
    modifies socket
    ensures consumed == UpToIdle(old(socket.items))
    ensures old(socket.items) == consumed + socket.items
    ensures found <==> exists k :: 0 <= k < |old(socket.items)| && IsIdle(old(socket.items)[k])
  {
    var queue := socket.items;
    var i := 0;
    found := false;
    while !found && i < |queue|
      invariant 0 <= i <= |queue|
      invariant found ==> 0 < i && IsIdle(queue[i - 1]) && NoIdle(queue, i - 1)
      invariant !found ==> NoIdle(queue, i)
      decreases |queue| - i
    {
      found := IsIdle(queue[i]);
      i := i + 1;
    }
    if found {
      UpToIdleSplit(queue, i - 1);
      UpToIdleUnfold(queue[i - 1..]);
    } else {
      UpToIdleSplit(queue, i);
      assert queue[..i] == queue;
    }
    consumed := queue[..i];
    socket.items := queue[i..];
  }

  /** None of the first `n` messages is an idle report. */
  predicate NoIdle(ms: seq<Message>, n: int)
    requires 0 <= n <= |ms|
  {
    forall k :: 0 <= k < n ==> !IsIdle(ms[k])
  }

  /** Non-idle messages pass straight into the prefix up to the idle report. */
  lemma {:induction false} UpToIdleSplit(ms: seq<Message>, n: int)
    requires 0 <= n <= |ms| && NoIdle(ms, n)
    ensures UpToIdle(ms) == ms[..n] + UpToIdle(ms[n..])
    decreases n
  {
    if n > 0 {
      UpToIdleSplit(ms, n - 1);
      var rest := ms[n - 1..];
      assert rest[0] == ms[n - 1] && !IsIdle(rest[0]);
      UpToIdleUnfold(rest);
      assert rest[1..] == ms[n..];
      assert ms[..n - 1] + [ms[n - 1]] == ms[..n];
    }
  }

  lemma UpToIdleUnfold(ms: seq<Message>)
    requires ms != []
    ensures UpToIdle(ms) == if IsIdle(ms[0]) then [ms[0]] else [ms[0]] + UpToIdle(ms[1..])
  {
  }
}
