/**
 * How observers subscribe to the reports of a module. A module has one
 * report socket. A single observer may take that socket itself; any
 * number of observers may instead ask for copies, which an event
 * multiplier reads from the report socket and puts in one client store
 * per observer. Once the socket has been handed out directly, no other
 * observer is accepted until the module is initialized again.
 */
module Sockets {
  import opened Errors
  import opened Messages

  /** Copies the reports of one source store into every client store. */
  class Multiplier {
    const source: Store
    var clients: seq<Store>

    constructor (source: Store)
      ensures this.source == source && clients == []
    {
      this.source := source;
      clients := [];
    }

    /** Add a fresh, empty client store and return it (`create_client`). */
    method CreateClient() returns (client: Store)
      modifies this
      ensures fresh(client) && client.items == []
      ensures clients == old(clients) + [client]
    {
      client := new Store();
      clients := clients + [client];
    }

    /** Add a given client store (`attach_client`). */
    method AttachClient(client: Store)
      modifies this
      ensures clients == old(clients) + [client]
    {
      clients := clients + [client];
    }
  }

  const NotAccepting := EmulicaError("A new request_socket must be created, but there is already one, and the multiple_observation parameter was not set to True")

  /** The observation state of a module (the socket part of `Module`). */
  class Module {
    var acceptObserver: bool
    var multiplier: Multiplier?
    var reportSocket: Store
    var requestSocket: Store

    /** A multiplier, once there is one, reads the module's report socket. */
    predicate Valid()
      reads this, multiplier
    {
      multiplier != null ==> multiplier.source == reportSocket
    }

    constructor ()
      ensures Valid()
      ensures acceptObserver && multiplier == null
    {
      acceptObserver := true;
      multiplier := null;
      reportSocket := new Store();
      requestSocket := new Store();
    }

    /**
     * Make the module ready for a new run (`initialize`): new empty
     * sockets, observers accepted again, no multiplier.
     */
    method Initialize()
      modifies this
      ensures Valid()
      ensures acceptObserver && multiplier == null
      ensures fresh(reportSocket) && reportSocket.items == []
      ensures fresh(requestSocket) && requestSocket.items == []
    {
      reportSocket := new Store();
      requestSocket := new Store();
      acceptObserver := true;
      multiplier := null;
    }

    /**
     * A store that will receive the module's reports
     * (`create_report_socket`). A module that no longer accepts observers
     * refuses with an EmulicaError and changes nothing. A single observer
     * gets the report socket itself and closes the module to further
     * observers; a multiple observer gets a fresh client of the
     * multiplier, which is created on the first such request.
     */
    method CreateReportSocket(multipleObservation: bool) returns (r: Result<Store>)
      requires Valid()
      modifies this, multiplier
      ensures Valid()
      ensures reportSocket == old(reportSocket) && requestSocket == old(requestSocket)
      ensures !old(acceptObserver) ==> r == Err(NotAccepting) && unchanged(this)
      ensures !old(acceptObserver) && old(multiplier) != null ==> unchanged(old(multiplier))
      ensures old(acceptObserver) && !multipleObservation ==>
        r == Ok(reportSocket) && !acceptObserver && multiplier == old(multiplier)
      ensures old(acceptObserver) && !multipleObservation && old(multiplier) != null ==> unchanged(old(multiplier))
      ensures old(acceptObserver) && multipleObservation ==>
        acceptObserver && r.Ok? && fresh(r.value) && r.value.items == [] &&
        multiplier != null && (old(multiplier) == null ==> fresh(multiplier)) &&
        (old(multiplier) != null ==> multiplier == old(multiplier)) &&
        multiplier.clients == (if old(multiplier) == null then [] else old(multiplier.clients)) + [r.value]
    {
      if !acceptObserver {
        return Err(NotAccepting);
      }
      if !multipleObservation {
        acceptObserver := false;
        return Ok(reportSocket);
      }
      if multiplier == null {
        multiplier := new Multiplier(reportSocket);
      }
      var client := multiplier.CreateClient();
      r := Ok(client);
    }

    /**
     * Register a store of the caller's as a report client
     * (`attach_report_socket`): refused with an EmulicaError when the
     * module no longer accepts observers, otherwise appended to the
     * clients of the multiplier, created on first use.
     */
    method AttachReportSocket(socket: Store) returns (r: Result<Unit>)
      requires Valid()
      modifies this, multiplier
      ensures Valid()
      ensures reportSocket == old(reportSocket) && acceptObserver == old(acceptObserver)
      ensures !old(acceptObserver) ==> r == Err(NotAccepting) && unchanged(this)
      ensures !old(acceptObserver) && old(multiplier) != null ==> unchanged(old(multiplier))
      ensures old(acceptObserver) ==>
        r == Ok(Unit) && multiplier != null &&
        (old(multiplier) == null ==> fresh(multiplier)) &&
        (old(multiplier) != null ==> multiplier == old(multiplier)) &&
        multiplier.clients == (if old(multiplier) == null then [] else old(multiplier.clients)) + [socket]
    {
      if !acceptObserver {
        return Err(NotAccepting);
      }
      if multiplier == null {
        multiplier := new Multiplier(reportSocket);
      }
      multiplier.AttachClient(socket);
      r := Ok(Unit);
    }
  }

  /**
   * The subscription state machine in a single scenario: after a direct
   * observer has taken the report socket, both kinds of subscription are
   * refused, and `Initialize` opens the module again.
   */
  method DirectObserverIsExclusive(m: Module, other: Store) returns (first: Result<Store>, second: Result<Store>, third: Result<Unit>, fourth: Result<Store>)
    requires m.Valid() && m.acceptObserver
    modifies m, m.multiplier
    ensures first.Ok? && second == Err(NotAccepting) && third == Err(NotAccepting)
    ensures fourth.Ok? && fourth.value == m.reportSocket
  {
    first := m.CreateReportSocket(false);
    second := m.CreateReportSocket(true);
    third := m.AttachReportSocket(other);
    m.Initialize();
    fourth := m.CreateReportSocket(false);
  }
}
