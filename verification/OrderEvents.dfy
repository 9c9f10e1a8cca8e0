/** The append-only audit log. */
module OrderEvents {
  import opened Sequences
  import opened OrderStatus
  import opened Database

  /** One order's events, oldest first. */
  function Timeline(log: seq<Event>, o: OrderId): seq<Event> {
    if log == [] then []
    else Timeline(Front(log), o) + if Last(log).orderId == o then [Last(log)] else []
  }

  /** The statuses one order's events moved it to, oldest first. */
  function History(log: seq<Event>, o: OrderId): seq<Status> {
    if log == [] then []
    else History(Front(log), o)
         + if Last(log).orderId == o && Last(log).toStatus.Some? then [Last(log).toStatus.value] else []
  }

  /** Appending an event extends the history of its own order only, and only when it names a status. */
  lemma HistoryAppend(log: seq<Event>, e: Event, o: OrderId)
    ensures History(log + [e], o)
            == History(log, o) + if e.orderId == o && e.toStatus.Some? then [e.toStatus.value] else []
  {
    assert Front(log + [e]) == log;
  }

  class OrderEventsService {
    const store: Store

    constructor (store: Store)
      ensures this.store == store
    {
      this.store := store;
    }

    method Record(e: Event)
      modifies store
      ensures store.Rows() == old(store.Rows()).(log := old(store.log) + [e])
    {
      store.log := store.log + [e];
    }
  }
}
