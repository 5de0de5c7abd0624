/**
 * The ticket table and the queries over it: lookup by id, the list ordered by creation date, the
 * filtered and paged list, the per-state summary, and the per-year sequence allocator.
 */
module TicketRepository {
  import opened Wrappers
  import opened Domain
  import Text
  import Numbers
  import Sorting

  /** The list criteria; an absent member does not filter. */
  datatype TicketFilter = TicketFilter(
    usuarioId: Option<Id>,
    estado: Option<EstadoTicket>,
    areaId: Option<Id>,
    prioridad: Option<Prioridad>,
    fechaDesde: Option<Instant>,
    fechaHasta: Option<Instant>,
    tieneGestor: Option<bool>,
    textoBusqueda: Option<string>,
    page: int,
    pageSize: int)

  /** A filter object built with no initializers: no criterion, page 1 of 20. */
  const NoFilter: TicketFilter := TicketFilter(None, None, None, None, None, None, None, None, 1, 20)

  predicate UniqueIds(ts: seq<Ticket>) {
    forall i, j :: 0 <= i < j < |ts| ==> ts[i].id != ts[j].id
  }

  /** The unique index on `Numero`. */
  predicate UniqueNumeros(ts: seq<Ticket>) {
    forall i, j :: 0 <= i < j < |ts| ==> ts[i].numero != ts[j].numero
  }

  predicate HasId(ts: seq<Ticket>, id: Id) {
    exists i :: 0 <= i < |ts| && ts[i].id == id
  }

  predicate HasNumero(ts: seq<Ticket>, numero: string) {
    exists i :: 0 <= i < |ts| && ts[i].numero == numero
  }

  /** Some row other than the one with `t`'s id already holds `t`'s number. */
  predicate NumeroTakenByOther(ts: seq<Ticket>, t: Ticket) {
    exists i :: 0 <= i < |ts| && ts[i].id != t.id && ts[i].numero == t.numero
  }

  /** The table with the row whose id is `t.id` overwritten by `t`. */
  function Replaced(ts: seq<Ticket>, t: Ticket): (r: seq<Ticket>)
    ensures |r| == |ts|
    ensures forall i :: 0 <= i < |ts| ==> r[i] == if ts[i].id == t.id then t else ts[i]
  {
    seq(|ts|, i requires 0 <= i < |ts| => if ts[i].id == t.id then t else ts[i])
  }

  class Repository {
    var tickets: seq<Ticket>

    ghost predicate Valid()
      reads this
    {
      UniqueIds(tickets) && UniqueNumeros(tickets)
    }

    constructor ()
      ensures Valid() && tickets == []
    {
      tickets := [];
    }

    /** `AddAsync`: a null ticket is refused; the database refuses a repeated key or number. */
    method Add(ticket: Option<Ticket>) returns (r: Outcome<()>)
      requires Valid()
      modifies this
      ensures Valid()
      ensures ticket.None? ==> r == Err(NullArgument("ticket")) && tickets == old(tickets)
      ensures ticket.Some? && (HasId(old(tickets), ticket.value.id) || HasNumero(old(tickets), ticket.value.numero)) ==>
        r == Err(SaveRefused) && tickets == old(tickets)
      ensures ticket.Some? && !HasId(old(tickets), ticket.value.id) && !HasNumero(old(tickets), ticket.value.numero) ==>
        r == Ok(()) && tickets == old(tickets) + [ticket.value]
    {
      if ticket.None? {
        return Err(NullArgument("ticket"));
      }
      var t := ticket.value;
      if HasId(tickets, t.id) || HasNumero(tickets, t.numero) {
        return Err(SaveRefused);
      }
      tickets := tickets + [t];
      r := Ok(());
    }

    /** `UpdateAsync`: overwrites the stored row that has the ticket's id. */
    method Update(ticket: Option<Ticket>) returns (r: Outcome<()>)
      requires Valid()
      modifies this
      ensures Valid()
      ensures ticket.None? ==> r == Err(NullArgument("ticket")) && tickets == old(tickets)
      ensures ticket.Some? && !HasId(old(tickets), ticket.value.id) ==> r == Err(RowMissing) && tickets == old(tickets)
      ensures ticket.Some? && HasId(old(tickets), ticket.value.id) && NumeroTakenByOther(old(tickets), ticket.value) ==>
        r == Err(SaveRefused) && tickets == old(tickets)
      ensures ticket.Some? && HasId(old(tickets), ticket.value.id) && !NumeroTakenByOther(old(tickets), ticket.value) ==>
        r == Ok(()) && tickets == Replaced(old(tickets), ticket.value)
    {
      if ticket.None? {
        return Err(NullArgument("ticket"));
      }
      var t := ticket.value;
      if !HasId(tickets, t.id) {
        return Err(RowMissing);
      }
      if NumeroTakenByOther(tickets, t) {
        return Err(SaveRefused);
      }
      tickets := Replaced(tickets, t);
      r := Ok(());
    }

    /** `DeleteAsync`: removes the stored row that has the ticket's id. */
    method Delete(ticket: Option<Ticket>) returns (r: Outcome<()>)
      requires Valid()
      modifies this
      ensures Valid()
      ensures ticket.None? ==> r == Err(NullArgument("ticket")) && tickets == old(tickets)
      ensures ticket.Some? && !HasId(old(tickets), ticket.value.id) ==> r == Err(RowMissing) && tickets == old(tickets)
      ensures ticket.Some? && HasId(old(tickets), ticket.value.id) ==>
        r == Ok(()) && tickets == Filter(old(tickets), (x: Ticket) => x.id != ticket.value.id)
    {
      if ticket.None? {
        return Err(NullArgument("ticket"));
      }
      var id := ticket.value.id;
      if !HasId(tickets, id) {
        return Err(RowMissing);
      }
      FilterKeepsUnique(tickets, (x: Ticket) => x.id != id);
      tickets := Filter(tickets, (x: Ticket) => x.id != id);
      r := Ok(());
    }
  }

  /** A sub-sequence of a table with unique keys has unique keys. */
  lemma FilterKeepsUnique(ts: seq<Ticket>, p: Ticket -> bool)
    requires UniqueIds(ts) && UniqueNumeros(ts)
    ensures UniqueIds(Filter(ts, p)) && UniqueNumeros(Filter(ts, p))
  {
    var id := (t: Ticket) => t.id;
    var numero := (t: Ticket) => t.numero;
    assert DistinctKeys(ts, id) && DistinctKeys(ts, numero);
    FilterKeepsDistinct(ts, p, id);
    FilterKeepsDistinct(ts, p, numero);
  }

  /** `GetByIdAsync`: the ticket with that id, or null. */
  function GetById(ts: seq<Ticket>, id: Id): (r: Option<Ticket>)
    ensures r.Some? ==> r.value in ts && r.value.id == id
    ensures r.None? <==> !HasId(ts, id)
  {
    match FirstIndex(ts, (t: Ticket) => t.id == id)
    case None => None
    case Some(k) => Some(ts[k])
  }

  /** Newest first: the order of `OrderByDescending(t => t.FechaCreacion)`. */
  predicate NewerFirst(a: Ticket, b: Ticket) {
    a.fechaCreacion >= b.fechaCreacion
  }

  lemma NewerFirstIsTotalPreorder()
    ensures Sorting.TotalPreorder(NewerFirst)
  {
  }

  /** `GetAllAsync`: every ticket, newest first. */
  function GetAll(ts: seq<Ticket>): (r: seq<Ticket>)
    ensures multiset(r) == multiset(ts)
    ensures Sorting.SortedBy(r, NewerFirst)
  {
    Sorting.SortBySorted(ts, NewerFirst);
    Sorting.SortBy(ts, NewerFirst)
  }

  /** `FechaHasta.Date.AddDays(1)`: midnight at the end of the given day. */
  function EndOfDay(h: Instant): (r: Instant)
    ensures h < r <= h + SecondsPerDay
    ensures r % SecondsPerDay == 0
  {
    h - h % SecondsPerDay + SecondsPerDay
  }

  /** The search text criterion of the list: trimmed, lower-cased, searched in number, subject and description. */
  predicate TextMatches(q: Option<string>, t: Ticket) {
    Text.IsNullOrWhiteSpace(q)
    || (var needle := Text.ToLower(Text.Trim(q.value));
        Text.Contains(Text.ToLower(t.numero), needle)
        || Text.Contains(Text.ToLower(t.asunto), needle)
        || Text.Contains(Text.ToLower(t.descripcion), needle))
  }

  /** The conjunction of every criterion `GetPagedAsync` applies. */
  predicate Matches(f: TicketFilter, t: Ticket) {
    (f.usuarioId.Some? ==> t.solicitanteId == f.usuarioId.value)
    && (f.estado.Some? ==> t.estado == f.estado.value)
    && (f.areaId.Some? ==> t.areaId == f.areaId.value)
    && (f.prioridad.Some? ==> t.prioridad == f.prioridad.value)
    && (f.fechaDesde.Some? ==> t.fechaCreacion >= f.fechaDesde.value)
    && (f.fechaHasta.Some? ==> t.fechaCreacion < EndOfDay(f.fechaHasta.value))
    && (f.tieneGestor.Some? ==> t.gestorAsignadoId.Some? == f.tieneGestor.value)
    && TextMatches(f.textoBusqueda, t)
  }

  /** The tickets a filter selects, newest first, before paging. */
  function Selected(f: TicketFilter, ts: seq<Ticket>): (r: seq<Ticket>)
    ensures forall t :: t in r <==> t in ts && Matches(f, t)
    ensures forall t :: multiset(r)[t] == if Matches(f, t) then multiset(ts)[t] else 0
    ensures Sorting.SortedBy(r, NewerFirst)
    ensures (forall t :: t in ts ==> Matches(f, t)) ==> |r| == |ts|
  {
    var kept := Filter(ts, (t: Ticket) => Matches(f, t));
    FilterMultiset(ts, (t: Ticket) => Matches(f, t));
    FilterAll(ts, (t: Ticket) => Matches(f, t));
    Sorting.SortBySorted(kept, NewerFirst);
    Sorting.SortBy(kept, NewerFirst)
  }

  /** The page number after the guard: zero or negative becomes 1. */
  function EffectivePage(f: TicketFilter): int {
    if f.page <= 0 then 1 else f.page
  }

  /** The page size after the guard: zero or negative becomes 20. */
  function EffectivePageSize(f: TicketFilter): int {
    if f.pageSize <= 0 then 20 else f.pageSize
  }

  /** `(page - 1) * pageSize` in unchecked 32-bit arithmetic. */
  function SkipCount(f: TicketFilter): int {
    Numbers.Wrap32((EffectivePage(f) - 1) * EffectivePageSize(f))
  }

  datatype PagedTickets = PagedTickets(items: seq<Ticket>, totalCount: nat)

  /**
   * `GetPagedAsync`: the filtered tickets newest first, the page that `Skip(skip).Take(size)` selects
   * (clipped to the selection), and the
   * filtered count before paging. A negative offset, which only arises when the offset product wraps
   * past the 32-bit range, is refused by the database.
   */
  function GetPaged(filter: Option<TicketFilter>, ts: seq<Ticket>): (r: Outcome<PagedTickets>)
    ensures filter.None? ==> r == Err(NullArgument("filter"))
    ensures filter.Some? && SkipCount(filter.value) < 0 ==> r.Err? && r.error.kind == SqlError
    ensures filter.Some? && SkipCount(filter.value) >= 0 ==> r.Ok?
    ensures r.Ok? ==> var f := filter.value; var sel := Selected(f, ts);
      r.value.totalCount == |sel| && r.value.items == Page(sel, SkipCount(f), EffectivePageSize(f))
  {
    if filter.None? then Err(NullArgument("filter"))
    else
      var f := filter.value;
      var sel := Selected(f, ts);
      var skip := SkipCount(f);
      if skip < 0 then Err(Failure(SqlError, "The offset specified in a OFFSET clause may not be negative."))
      else
        Ok(PagedTickets(Page(sel, skip, EffectivePageSize(f)), |sel|))
  }

  /** Every ticket on a page is stored and meets each criterion of the filter, the end day included whole. */
  lemma PagedItemsMeetFilter(f: TicketFilter, ts: seq<Ticket>, t: Ticket)
    requires GetPaged(Some(f), ts).Ok? && t in GetPaged(Some(f), ts).value.items
    ensures t in ts
    ensures f.usuarioId.Some? ==> t.solicitanteId == f.usuarioId.value
    ensures f.estado.Some? ==> t.estado == f.estado.value
    ensures f.areaId.Some? ==> t.areaId == f.areaId.value
    ensures f.prioridad.Some? ==> t.prioridad == f.prioridad.value
    ensures f.fechaDesde.Some? ==> f.fechaDesde.value <= t.fechaCreacion
    ensures f.fechaHasta.Some? ==> t.fechaCreacion < f.fechaHasta.value - f.fechaHasta.value % SecondsPerDay + SecondsPerDay
    ensures f.tieneGestor.Some? ==> (t.gestorAsignadoId.Some? <==> f.tieneGestor.value)
    ensures TextMatches(f.textoBusqueda, t)
  {
    var sel := Selected(f, ts);
    var items := GetPaged(Some(f), ts).value.items;
    var k :| 0 <= k < |items| && items[k] == t;
    assert t in sel;
  }

  /** Pages list newest first. */
  lemma PagedItemsNewestFirst(f: TicketFilter, ts: seq<Ticket>)
    requires GetPaged(Some(f), ts).Ok?
    ensures Sorting.SortedBy(GetPaged(Some(f), ts).value.items, NewerFirst)
  {
    var sel := Selected(f, ts);
    assert Sorting.SortedBy(sel, NewerFirst);
  }

  /** The offset product wraps: page 65536 of 65536 asks for a negative offset, which the database refuses. */
  lemma OffsetWraps()
    ensures var f := NoFilter.(page := 65536, pageSize := 65536);
      SkipCount(f) == -65536 && GetPaged(Some(f), []).Err?
  {
    var f := NoFilter.(page := 65536, pageSize := 65536);
    assert EffectivePage(f) == 65536 && EffectivePageSize(f) == 65536;
    assert (65536 - 1) * 65536 == 4294901760;
    assert Numbers.Wrap32(4294901760) == -65536 by {
      assert (4294901760 - Numbers.Int32Min) % 0x1_0000_0000 == 2147418112;
    }
  }

  /** The empty filter selects every ticket, so its count is the size of the table. */
  lemma {:induction false} NoFilterSelectsAll(ts: seq<Ticket>)
    ensures GetPaged(Some(NoFilter), ts).Ok?
    ensures GetPaged(Some(NoFilter), ts).value.totalCount == |ts|
  {
    assert forall t :: Matches(NoFilter, t);
  }

  /** The criteria of `GetStatusSummaryAsync`: the raw search text, case-sensitive, in subject or description. */
  predicate SummaryMatches(f: TicketFilter, t: Ticket) {
    (Text.IsNullOrWhiteSpace(f.textoBusqueda)
     || Text.Contains(t.asunto, f.textoBusqueda.value)
     || Text.Contains(t.descripcion, f.textoBusqueda.value))
    && (f.areaId.Some? ==> t.areaId == f.areaId.value)
    && (f.usuarioId.Some? ==> t.solicitanteId == f.usuarioId.value)
    && (f.prioridad.Some? ==> t.prioridad == f.prioridad.value)
    && (f.tieneGestor.Some? ==> t.gestorAsignadoId.Some? == f.tieneGestor.value)
  }

  function SummaryRows(f: TicketFilter, ts: seq<Ticket>): seq<Ticket> {
    Filter(ts, (t: Ticket) => SummaryMatches(f, t))
  }

  /** How many of `ts` are in the state whose integer value is `code`. */
  function CountCode(ts: seq<Ticket>, code: int): nat {
    if ts == [] then 0 else (if EstadoCode(ts[0].estado) == code then 1 else 0) + CountCode(ts[1..], code)
  }

  function Codes(ts: seq<Ticket>): set<int> {
    set t | t in ts :: EstadoCode(t.estado)
  }

  lemma {:induction false} CodesCounted(ts: seq<Ticket>, code: int)
    ensures code in Codes(ts) <==> CountCode(ts, code) > 0
  {
    if ts != [] {
      CodesCounted(ts[1..], code);
      assert ts == [ts[0]] + ts[1..];
      assert Codes(ts) == {EstadoCode(ts[0].estado)} + Codes(ts[1..]);
    }
  }

  /**
   * `GetStatusSummaryAsync`: ticket counts grouped by the state's integer value. A state no selected
   * ticket is in has no key. A null filter is dereferenced before any query.
   */
  function StatusSummary(filter: Option<TicketFilter>, ts: seq<Ticket>): (r: Outcome<map<int, nat>>)
    ensures filter.None? <==> r.Err?
    ensures r.Err? ==> r.error.kind == NullReference
    ensures r.Ok? ==> forall code :: code in r.value ==> 0 <= code <= 4
    ensures r.Ok? ==> forall e: EstadoTicket ::
      (EstadoCode(e) in r.value <==> CountCode(SummaryRows(filter.value, ts), EstadoCode(e)) > 0)
      && (EstadoCode(e) in r.value ==> r.value[EstadoCode(e)] == CountCode(SummaryRows(filter.value, ts), EstadoCode(e)))
  {
    if filter.None? then Err(Failure(NullReference, "Object reference not set to an instance of an object."))
    else
      var rows := SummaryRows(filter.value, ts);
      var m := map code | code in Codes(rows) :: CountCode(rows, code);
      assert forall e: EstadoTicket :: EstadoCode(e) in m <==> CountCode(rows, EstadoCode(e)) > 0 by {
        forall e: EstadoTicket ensures EstadoCode(e) in m <==> CountCode(rows, EstadoCode(e)) > 0 {
          CodesCounted(rows, EstadoCode(e));
        }
      }
      Ok(m)
  }

  /** The counts of the five states add up to the number of selected tickets. */
  lemma {:induction false} CountsPartition(ts: seq<Ticket>)
    ensures CountCode(ts, 0) + CountCode(ts, 1) + CountCode(ts, 2) + CountCode(ts, 3) + CountCode(ts, 4) == |ts|
  {
    if ts != [] { CountsPartition(ts[1..]); }
  }

  function CountOrZero(m: map<int, nat>, code: int): nat {
    if code in m then m[code] else 0
  }

  /** The summary's values add up to the number of tickets the summary criteria select. */
  lemma SummaryTotal(f: TicketFilter, ts: seq<Ticket>)
    ensures var m := StatusSummary(Some(f), ts).value;
      CountOrZero(m, 0) + CountOrZero(m, 1) + CountOrZero(m, 2) + CountOrZero(m, 3) + CountOrZero(m, 4)
      == |SummaryRows(f, ts)|
  {
    CountsTotal(StatusSummary(Some(f), ts).value, SummaryRows(f, ts));
  }

  /** A map holding exactly the non-zero per-state counts of `rows` adds up to `|rows|`. */
  lemma CountsTotal(m: map<int, nat>, rows: seq<Ticket>)
    requires forall e: EstadoTicket ::
      (EstadoCode(e) in m <==> CountCode(rows, EstadoCode(e)) > 0)
      && (EstadoCode(e) in m ==> m[EstadoCode(e)] == CountCode(rows, EstadoCode(e)))
    ensures CountOrZero(m, 0) + CountOrZero(m, 1) + CountOrZero(m, 2) + CountOrZero(m, 3) + CountOrZero(m, 4) == |rows|
  {
    assert EstadoCode(Nueva) == 0 && EstadoCode(EnProceso) == 1 && EstadoCode(Resuelta) == 2;
    assert EstadoCode(Cerrada) == 3 && EstadoCode(Rechazada) == 4;
    CountsPartition(rows);
  }

  /** The summary ignores the state, date and paging members of the filter. */
  lemma SummaryIgnoresStateAndDates(f: TicketFilter, ts: seq<Ticket>, estado: Option<EstadoTicket>,
                                    desde: Option<Instant>, hasta: Option<Instant>, page: int, pageSize: int)
    ensures StatusSummary(Some(f.(estado := estado, fechaDesde := desde, fechaHasta := hasta, page := page, pageSize := pageSize)), ts)
      == StatusSummary(Some(f), ts)
  {
    var g := f.(estado := estado, fechaDesde := desde, fechaHasta := hasta, page := page, pageSize := pageSize);
    SummaryRowsIgnore(f, g, ts);
  }

  lemma SummaryRowsIgnore(f: TicketFilter, g: TicketFilter, ts: seq<Ticket>)
    requires g.usuarioId == f.usuarioId && g.areaId == f.areaId && g.prioridad == f.prioridad
    requires g.tieneGestor == f.tieneGestor && g.textoBusqueda == f.textoBusqueda
    ensures SummaryRows(g, ts) == SummaryRows(f, ts)
  {
    var p := (t: Ticket) => SummaryMatches(g, t);
    var q := (t: Ticket) => SummaryMatches(f, t);
    assert forall t :: p(t) == q(t);
    FilterSamePredicate(ts, p, q);
  }

  lemma {:induction false} FilterSamePredicate(ts: seq<Ticket>, p: Ticket -> bool, q: Ticket -> bool)
    requires forall t :: p(t) == q(t)
    ensures Filter(ts, p) == Filter(ts, q)
  {
    if ts != [] { FilterSamePredicate(ts[1..], p, q); }
  }

  /** "SOL-{year}-". */
  function YearPrefix(year: int): string {
    "SOL-" + Numbers.IntToString(year) + "-"
  }

  /** The stored numbers that start with `prefix`, in table order. */
  function NumerosWithPrefix(ts: seq<Ticket>, prefix: string): (r: seq<string>)
    ensures forall n :: n in r ==> Text.StartsWith(n, prefix) && HasNumero(ts, n)
    ensures forall i :: 0 <= i < |ts| && Text.StartsWith(ts[i].numero, prefix) ==> ts[i].numero in r
  {
    if ts == [] then []
    else
      var rest := NumerosWithPrefix(ts[1..], prefix);
      assert forall n :: HasNumero(ts[1..], n) ==> HasNumero(ts, n) by {
        forall n | HasNumero(ts[1..], n) ensures HasNumero(ts, n) {
          var i :| 0 <= i < |ts| - 1 && ts[1..][i].numero == n;
          assert ts[i + 1].numero == n;
        }
      }
      assert HasNumero(ts, ts[0].numero) by { assert ts[0].numero == ts[0].numero; }
      (if Text.StartsWith(ts[0].numero, prefix) then [ts[0].numero] else []) + rest
  }

  /** The greatest string in ordinal order, as `OrderByDescending(n).FirstOrDefault()` finds it. */
  function Greatest(xs: seq<string>): (r: Option<string>)
    ensures r.None? <==> xs == []
    ensures r.Some? ==> r.value in xs && forall y :: y in xs ==> Text.LexLe(y, r.value)
  {
    if xs == [] then None
    else match Greatest(xs[1..])
      case None => Text.LexLeReflexive(xs[0]); Some(xs[0])
      case Some(g) =>
        if Text.LexLe(xs[0], g) then Some(g)
        else
          Text.LexLeTotal(xs[0], g);
          Text.LexLeReflexive(xs[0]);
          assert forall y :: y in xs[1..] ==> Text.LexLe(y, xs[0]) by {
            forall y | y in xs[1..] ensures Text.LexLe(y, xs[0]) { Text.LexLeTransitive(y, g, xs[0]); }
          }
          Some(xs[0])
  }

  /**
   * `GetNextSequenceForYearAsync`: the suffix of the greatest number with this year's prefix, parsed
   * as an `int` and incremented in unchecked arithmetic; 1 when no number has the prefix or the
   * suffix does not parse.
   */
  function NextSequenceForYear(ts: seq<Ticket>, year: int): (r: int)
    ensures Numbers.Int32Min <= r <= Numbers.Int32Max
    ensures NumerosWithPrefix(ts, YearPrefix(year)) == [] ==> r == 1
  {
    var prefix := YearPrefix(year);
    match Greatest(NumerosWithPrefix(ts, prefix))
    case None => 1
    case Some(last) =>
      match Numbers.ParseInt32(last[|prefix|..])
      case None => 1
      case Some(v) => Numbers.Wrap32(v + 1)
  }

  /** With no number carrying this year's prefix the allocator starts at 1. */
  lemma NextSequenceNoMatch(ts: seq<Ticket>, year: int)
    requires forall i :: 0 <= i < |ts| ==> !Text.StartsWith(ts[i].numero, YearPrefix(year))
    ensures NextSequenceForYear(ts, year) == 1
  {
  }

  /** How the allocator's result follows from the greatest matching number and its parsed suffix. */
  lemma NextSequenceOfGreatest(ts: seq<Ticket>, year: int)
    ensures var prefix := YearPrefix(year);
      var g := Greatest(NumerosWithPrefix(ts, prefix));
      g.Some? ==> (|prefix| <= |g.value| &&
        var v := Numbers.ParseInt32(g.value[|prefix|..]);
        NextSequenceForYear(ts, year) == (if v.None? then 1 else if v.value == Numbers.Int32Max then Numbers.Int32Min else v.value + 1))
  {
    var prefix := YearPrefix(year);
    var g := Greatest(NumerosWithPrefix(ts, prefix));
    if g.Some? {
      var v := Numbers.ParseInt32(g.value[|prefix|..]);
      if v.Some? { Numbers.Wrap32Successor(v.value); }
    }
  }

  /** The allocator's result is below 1 exactly when the greatest suffix parses to a negative value or to `int.MaxValue`. */
  lemma NextSequenceBelowOne(ts: seq<Ticket>, year: int)
    ensures NextSequenceForYear(ts, year) < 1 <==>
      var prefix := YearPrefix(year);
      var g := Greatest(NumerosWithPrefix(ts, prefix));
      g.Some? && Numbers.ParseInt32(g.value[|prefix|..]).Some?
      && (Numbers.ParseInt32(g.value[|prefix|..]).value < 0 || Numbers.ParseInt32(g.value[|prefix|..]).value == Numbers.Int32Max)
  {
    NextSequenceOfGreatest(ts, year);
  }

  /** The numeric suffix of a number that has the prefix followed by four digits. */
  predicate FourDigitSuffix(n: string, prefix: string) {
    |n| == |prefix| + 4 && Text.StartsWith(n, prefix) && Numbers.AllDigits(n[|prefix|..])
  }

  /** Among numbers with a common prefix and four-digit suffixes, the greatest has the largest suffix value. */
  lemma GreatestHasLargestSuffix(nums: seq<string>, prefix: string)
    requires nums != []
    requires forall n :: n in nums ==> FourDigitSuffix(n, prefix)
    ensures FourDigitSuffix(Greatest(nums).value, prefix)
    ensures forall n :: n in nums && FourDigitSuffix(n, prefix) ==>
      Numbers.DigitsValue(n[|prefix|..]) <= Numbers.DigitsValue(Greatest(nums).value[|prefix|..])
  {
    var g := Greatest(nums).value;
    var sg := g[|prefix|..];
    assert g == prefix + sg;
    forall n | n in nums
      ensures Numbers.DigitsValue(n[|prefix|..]) <= Numbers.DigitsValue(sg)
    {
      assert n == prefix + n[|prefix|..];
      Text.LexLeCommonPrefix(prefix, n[|prefix|..], sg);
      Numbers.SameLengthOrder(n[|prefix|..], sg);
    }
  }

  lemma NumerosFourDigits(ts: seq<Ticket>, prefix: string)
    requires forall i :: 0 <= i < |ts| && Text.StartsWith(ts[i].numero, prefix) ==> FourDigitSuffix(ts[i].numero, prefix)
    ensures forall n :: n in NumerosWithPrefix(ts, prefix) ==> FourDigitSuffix(n, prefix)
  {
    forall n | n in NumerosWithPrefix(ts, prefix) ensures FourDigitSuffix(n, prefix) {
      var k :| 0 <= k < |ts| && ts[k].numero == n;
    }
  }

  /** A greatest number with a four-digit suffix yields that suffix's value plus one. */
  lemma NextSequenceAfterFourDigits(ts: seq<Ticket>, year: int)
    requires Greatest(NumerosWithPrefix(ts, YearPrefix(year))).Some?
    requires FourDigitSuffix(Greatest(NumerosWithPrefix(ts, YearPrefix(year))).value, YearPrefix(year))
    ensures NextSequenceForYear(ts, year)
      == Numbers.DigitsValue(Greatest(NumerosWithPrefix(ts, YearPrefix(year))).value[|YearPrefix(year)|..]) + 1
  {
    var prefix := YearPrefix(year);
    var sg := Greatest(NumerosWithPrefix(ts, prefix)).value[|prefix|..];
    Numbers.DigitsValueBound(sg);
    assert Numbers.Pow10(4) == 10000;
    Numbers.ParseDigits(sg);
    NextSequenceOfGreatest(ts, year);
  }

  /** When every number of the year has a four-digit suffix, the allocator returns the largest suffix plus one. */
  lemma NextSequenceFourDigits(ts: seq<Ticket>, year: int)
    requires forall i :: 0 <= i < |ts| && Text.StartsWith(ts[i].numero, YearPrefix(year)) ==> FourDigitSuffix(ts[i].numero, YearPrefix(year))
    requires exists i :: 0 <= i < |ts| && Text.StartsWith(ts[i].numero, YearPrefix(year))
    ensures exists i :: (0 <= i < |ts| && FourDigitSuffix(ts[i].numero, YearPrefix(year))
      && NextSequenceForYear(ts, year) == Numbers.DigitsValue(ts[i].numero[|YearPrefix(year)|..]) + 1)
    ensures forall i :: 0 <= i < |ts| && FourDigitSuffix(ts[i].numero, YearPrefix(year)) ==>
      Numbers.DigitsValue(ts[i].numero[|YearPrefix(year)|..]) < NextSequenceForYear(ts, year)
  {
    var prefix := YearPrefix(year);
    var nums := NumerosWithPrefix(ts, prefix);
    var i0 :| 0 <= i0 < |ts| && Text.StartsWith(ts[i0].numero, prefix);
    assert ts[i0].numero in nums;
    NumerosFourDigits(ts, prefix);
    GreatestHasLargestSuffix(nums, prefix);
    NextSequenceAfterFourDigits(ts, year);
    var g := Greatest(nums).value;
    assert HasNumero(ts, g);
    var k :| 0 <= k < |ts| && ts[k].numero == g;
    forall i | 0 <= i < |ts| && FourDigitSuffix(ts[i].numero, prefix)
      ensures Numbers.DigitsValue(ts[i].numero[|prefix|..]) < NextSequenceForYear(ts, year)
    {
      assert ts[i].numero in nums;
    }
  }

  /** A ticket table for the two lemmas below: every field but the number is fixed. */
  function NumberedTicket(id: Id, numero: string): Ticket {
    Ticket(id, numero, "", "", Media, Nueva, 1, 1, 1, None, None, 0, None)
  }

  /** Two tickets of one year, numbered with suffixes 9999 and 10000. */
  function WidthChangeTable(year: int): seq<Ticket> {
    [NumberedTicket(1, YearPrefix(year) + "9999"), NumberedTicket(2, YearPrefix(year) + "10000")]
  }

  lemma WidthChangeGreatest(p: string)
    ensures Greatest([p + "9999", p + "10000"]) == Some(p + "9999")
  {
    var a, b := p + "9999", p + "10000";
    Text.LexLeCommonPrefix(p, "9999", "10000");
    assert !Text.LexLe("9999", "10000");
    assert [a, b][1..] == [b];
    assert Greatest([b]) == Some(b);
  }

  /** After suffix 9999 the string order puts "…-10000" below "…-9999", so the allocator hands out a number already in use. */
  lemma NextSequenceRepeatsAfterWidthChange(year: int)
    ensures NextSequenceForYear(WidthChangeTable(year), year) == 10000
    ensures HasNumero(WidthChangeTable(year), YearPrefix(year) + Numbers.Padded(10000, 4))
  {
    var p := YearPrefix(year);
    var ts := WidthChangeTable(year);
    var a, b := p + "9999", p + "10000";
    assert a[..|p|] == p && b[..|p|] == p;
    assert NumerosWithPrefix(ts, p) == [a, b] by {
      assert ts[1..] == [NumberedTicket(2, b)];
      assert NumerosWithPrefix(ts[1..][1..], p) == [];
    }
    WidthChangeGreatest(p);
    assert a[|p|..] == "9999";
    Parse9999();
    NextSequenceOfGreatest(ts, year);
    Padded10000();
    assert ts[1].numero == p + Numbers.Padded(10000, 4);
  }

  /** A signed suffix parses, so a number ending "--5" makes the allocator return -4. */
  lemma NextSequenceNegativeSuffix(year: int)
    ensures NextSequenceForYear([NumberedTicket(1, YearPrefix(year) + "-5")], year) == -4
  {
    var p := YearPrefix(year);
    var a := p + "-5";
    var ts := [NumberedTicket(1, a)];
    assert a[..|p|] == p;
    assert NumerosWithPrefix(ts, p) == [a] by {
      assert NumerosWithPrefix(ts[1..], p) == [];
    }
    assert Greatest([a]) == Some(a);
    assert a[|p|..] == "-5";
    Numbers.ParseNegative();
    NextSequenceOfGreatest(ts, year);
  }

  lemma Parse9999()
    ensures Numbers.ParseInt32("9999") == Some(9999)
  {
    assert "9999"[..3] == "999" && "999"[..2] == "99" && "99"[..1] == "9" && "9"[..0] == "";
    assert Numbers.DigitsValue("9") == 9;
    assert Numbers.DigitsValue("99") == 99;
    assert Numbers.DigitsValue("999") == 999;
    assert Numbers.DigitsValue("9999") == 9999;
    Numbers.ParseDigits("9999");
  }

  lemma Padded10000()
    ensures Numbers.Padded(10000, 4) == "10000"
  {
    assert Numbers.Digits(1) == "1";
    Numbers.DigitsStep(10, "1");
    Numbers.DigitsStep(100, "10");
    Numbers.DigitsStep(1000, "100");
    Numbers.DigitsStep(10000, "1000");
    assert seq(0, _ => '0') == "";
  }


}
