/**
 * The ticket event log: events are appended and read back per ticket, oldest first. The two
 * "recent" queries of the repository interface have no implementation; what any implementation
 * must give is stated as `AdmissibleRecent`.
 */
module TicketEventRepository {
  import opened Wrappers
  import opened Domain
  import Sorting

  predicate UniqueIds(es: seq<TicketEvent>) {
    forall i, j :: 0 <= i < j < |es| ==> es[i].id != es[j].id
  }

  predicate HasId(es: seq<TicketEvent>, id: Id) {
    exists i :: 0 <= i < |es| && es[i].id == id
  }

  class Repository {
    var events: seq<TicketEvent>

    ghost predicate Valid()
      reads this
    {
      UniqueIds(events)
    }

    constructor ()
      ensures Valid() && events == []
    {
      events := [];
    }

    /** `AddAsync`: appends the event; earlier events are left as they were. A repeated key is refused. */
    method Add(evt: TicketEvent) returns (r: Outcome<()>)
      requires Valid()
      modifies this
      ensures Valid()
      ensures HasId(old(events), evt.id) ==> r == Err(SaveRefused) && events == old(events)
      ensures !HasId(old(events), evt.id) ==> r == Ok(()) && events == old(events) + [evt]
    {
      if HasId(events, evt.id) {
        return Err(SaveRefused);
      }
      events := events + [evt];
      r := Ok(());
    }
  }

  /** Oldest first: the order of `OrderBy(e => e.Fecha)`. */
  predicate OlderFirst(a: TicketEvent, b: TicketEvent) {
    a.fecha <= b.fecha
  }

  lemma OlderFirstIsTotalPreorder()
    ensures Sorting.TotalPreorder(OlderFirst)
  {
  }

  /** `GetByTicketIdOrderedAscAsync`: the events of one ticket, oldest first. */
  function GetByTicketIdOrderedAsc(es: seq<TicketEvent>, ticketId: Id): (r: seq<TicketEvent>)
    ensures forall e :: e in r <==> e in es && e.ticketId == ticketId
    ensures forall e :: multiset(r)[e] == if e.ticketId == ticketId then multiset(es)[e] else 0
    ensures Sorting.SortedBy(r, OlderFirst)
  {
    OlderFirstIsTotalPreorder();
    Sorting.SortedWhere(es, (e: TicketEvent) => e.ticketId == ticketId, OlderFirst)
  }

  /** An append never changes what was logged before: a ticket's history gains only the new event. */
  lemma AppendExtendsHistory(es: seq<TicketEvent>, evt: TicketEvent, ticketId: Id, e: TicketEvent)
    ensures e in GetByTicketIdOrderedAsc(es + [evt], ticketId)
      <==> e in GetByTicketIdOrderedAsc(es, ticketId) || (e == evt && evt.ticketId == ticketId)
  {
    assert e in es + [evt] <==> e in es || e == evt;
  }

  /**
   * What a result of `GetRecentByUserIdAsync(userId, count)` or `GetGlobalRecentAsync(.., count)`
   * can be: at most `count` stored events.
   */
  predicate AdmissibleRecent(es: seq<TicketEvent>, count: int, r: seq<TicketEvent>) {
    |r| <= count && forall e :: e in r ==> e in es
  }
}
