/** The system event log: events are only appended; the recent list is the newest `count` of them. */
module SystemEventRepository {
  import opened Wrappers
  import opened Domain
  import Sorting

  predicate UniqueIds(es: seq<SystemEvent>) {
    forall i, j :: 0 <= i < j < |es| ==> es[i].id != es[j].id
  }

  predicate HasId(es: seq<SystemEvent>, id: Id) {
    exists i :: 0 <= i < |es| && es[i].id == id
  }

  class Repository {
    var events: seq<SystemEvent>

    ghost predicate Valid()
      reads this
    {
      UniqueIds(events)
    }

    constructor ()
      ensures Valid() && events == []
    {
      events := [];
    }

    /** `AddAsync`: appends the event; earlier events are left as they were. A repeated key is refused. */
    method Add(evt: SystemEvent) returns (r: Outcome<()>)
      requires Valid()
      modifies this
      ensures Valid()
      ensures HasId(old(events), evt.id) ==> r == Err(SaveRefused) && events == old(events)
      ensures !HasId(old(events), evt.id) ==> r == Ok(()) && events == old(events) + [evt]
    {
      if HasId(events, evt.id) {
        return Err(SaveRefused);
      }
      events := events + [evt];
      r := Ok(());
    }
  }

  /** Newest first: the order of `OrderByDescending(e => e.Fecha)`. */
  predicate NewerFirst(a: SystemEvent, b: SystemEvent) {
    a.fecha >= b.fecha
  }

  lemma NewerFirstIsTotalPreorder()
    ensures Sorting.TotalPreorder(NewerFirst)
  {
  }

  /** The `n` newest events, newest first. */
  function Recent(es: seq<SystemEvent>, n: nat): (r: seq<SystemEvent>)
    ensures |r| == if n <= |es| then n else |es|
    ensures Sorting.SortedBy(r, NewerFirst)
    ensures multiset(r) <= multiset(es)
  {
    var s := Sorting.SortBy(es, NewerFirst);
    var m := if n <= |s| then n else |s|;
    NewerFirstIsTotalPreorder();
    Sorting.SortBySorted(es, NewerFirst);
    Sorting.SortedPrefix(s, m, NewerFirst);
    s[..m]
  }

  /** `GetRecentAsync(count)`: the newest `count` events; a negative count is refused by the database. */
  function GetRecent(es: seq<SystemEvent>, count: int := 20): (r: Outcome<seq<SystemEvent>>)
    ensures count < 0 <==> r.Err?
    ensures r.Ok? ==> r.value == Recent(es, count)
  {
    if count < 0 then Err(Failure(SqlError, "A TOP or FETCH clause contains an invalid value."))
    else Ok(Recent(es, count))
  }

  /** Nothing left out of the recent list is newer than anything in it. */
  lemma RecentAreNewest(es: seq<SystemEvent>, n: nat, e: SystemEvent, i: int)
    requires e in es && e !in Recent(es, n)
    requires 0 <= i < |Recent(es, n)|
    ensures e.fecha <= Recent(es, n)[i].fecha
  {
    var s := Sorting.SortBy(es, NewerFirst);
    var r := Recent(es, n);
    NewerFirstIsTotalPreorder();
    Sorting.SortBySorted(es, NewerFirst);
    assert e in multiset(s);
    var j :| 0 <= j < |s| && s[j] == e;
    assert r == s[..|r|];
    assert j >= |r|;
    assert r[i] == s[i];
  }

  /** The default list holds at most 20 events; it holds 20 as soon as 20 are stored. */
  lemma DefaultRecentSize(es: seq<SystemEvent>)
    ensures GetRecent(es).Ok? && |GetRecent(es).value| <= 20
    ensures |es| >= 20 ==> |GetRecent(es).value| == 20
  {
  }

  /**
   * What the services' `RegistrarEvento` appends: one event by the caller when the caller's id claim
   * parses as an id, and nothing otherwise.
   */
  function AuditEntry(caller: Option<Id>, eventId: Id, tipo: SystemEventType, detalles: string, now: Instant)
    : (r: seq<SystemEvent>)
    ensures caller.None? ==> r == []
    ensures caller.Some? ==> r == [SystemEvent(eventId, caller.value, tipo, detalles, now)]
  {
    if caller.Some? then [SystemEvent(eventId, caller.value, tipo, detalles, now)] else []
  }

  /** Appending an audit entry with a fresh id keeps the ids unique. */
  lemma AuditEntryKeepsUnique(es: seq<SystemEvent>, caller: Option<Id>, eventId: Id, tipo: SystemEventType, detalles: string, now: Instant)
    requires UniqueIds(es) && !HasId(es, eventId)
    ensures UniqueIds(es + AuditEntry(caller, eventId, tipo, detalles, now))
  {
  }
}
