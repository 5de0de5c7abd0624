/**
 * The ticket endpoints' own logic: the role rules that narrow the list and the status summary, the
 * checks on a new comment, and the history view that merges a ticket's events and comments into
 * one list ordered by minute.
 */
module TicketController {
  import opened Wrappers
  import opened Domain
  import Text
  import Sorting
  import TicketRepository
  import TicketEventRepository
  import ComentarioRepository
  import UserRepository
  import TicketService

  /** What an action answers; `Thrown` is an exception left to the error middleware. */
  datatype Response<T> =
    | OkObject(body: T)
    | BadRequest(message: string)
    | Unauthorized(reason: Option<string>)
    | NotFound(message: string)
    | Thrown(failure: Failure)

  /** The caller as the token presents it: the id claim when it parses (`TryGetUserId`), and the role claim. */
  datatype Caller = Caller(userId: Option<Id>, rol: Rol)

  /**
   * The role rules of the list and of the summary: a requester sees only the tickets they opened; a
   * manager with an area sees only that area, whatever area the client asked for; a manager without
   * one, and the administrators, keep the filter as sent.
   */
  function Scope(f: TicketRepository.TicketFilter, rol: Rol, userId: Id, users: map<Id, Usuario>): (r: TicketRepository.TicketFilter)
    ensures rol == Solicitante ==> r == f.(usuarioId := Some(userId))
    ensures rol == Gestor && userId in users && users[userId].areaId.Some? ==> r == f.(areaId := users[userId].areaId)
    ensures rol == Gestor && !(userId in users && users[userId].areaId.Some?) ==> r == f
    ensures IsAdministrator(rol) ==> r == f
  {
    if rol == Solicitante then f.(usuarioId := Some(userId))
    else if rol == Gestor && userId in users && users[userId].areaId.Some? then f.(areaId := users[userId].areaId)
    else f
  }

  /** Applying the rules to a filter they already shaped changes nothing more. */
  lemma ScopeIdempotent(f: TicketRepository.TicketFilter, rol: Rol, userId: Id, users: map<Id, Usuario>)
    ensures Scope(Scope(f, rol, userId, users), rol, userId, users) == Scope(f, rol, userId, users)
  {
  }

  /**
   * Every ticket on a scoped page is in the caller's reach: a requester's own ticket, or a ticket
   * of the manager's area.
   */
  lemma ScopedPageInReach(f: TicketRepository.TicketFilter, rol: Rol, userId: Id, users: map<Id, Usuario>,
                          ts: seq<Ticket>, t: Ticket)
    requires var g := Scope(f, rol, userId, users);
      TicketRepository.GetPaged(Some(g), ts).Ok? && t in TicketRepository.GetPaged(Some(g), ts).value.items
    ensures t in ts
    ensures rol == Solicitante ==> t.solicitanteId == userId
    ensures rol == Gestor && userId in users && users[userId].areaId.Some? ==> t.areaId == users[userId].areaId.value
  {
    TicketRepository.PagedItemsMeetFilter(Scope(f, rol, userId, users), ts, t);
  }

  /** The scoped summary counts only tickets in the caller's reach, by the same rules. */
  lemma ScopedSummaryInReach(f: TicketRepository.TicketFilter, rol: Rol, userId: Id, users: map<Id, Usuario>,
                             ts: seq<Ticket>, t: Ticket)
    requires t in TicketRepository.SummaryRows(Scope(f, rol, userId, users), ts)
    ensures t in ts
    ensures rol == Solicitante ==> t.solicitanteId == userId
    ensures rol == Gestor && userId in users && users[userId].areaId.Some? ==> t.areaId == users[userId].areaId.value
  {
    var g := Scope(f, rol, userId, users);
    assert TicketRepository.SummaryMatches(g, t);
  }

  /** `CreateComentarioDto`: the comment text, which the client may leave null. */
  datatype CreateComentarioDto = CreateComentarioDto(texto: Option<string>)

  /** What `AddComment` hands to the ticket service once its checks pass. */
  datatype CommentRequest = CommentRequest(ticketId: Id, texto: string, userId: Id)

  /**
   * `AddComment`'s checks, in their order: the body first, then its text, then the caller's id, so a
   * blank comment is refused with 400 even from a caller whose id does not parse.
   */
  function AddComment(ticketId: Id, dto: Option<CreateComentarioDto>, caller: Option<Id>): (r: Response<CommentRequest>)
    ensures dto.None? ==> r == BadRequest("Datos inválidos.")
    ensures dto.Some? && Text.IsNullOrWhiteSpace(dto.value.texto) ==> r == BadRequest("El comentario no puede estar vacío.")
    ensures dto.Some? && !Text.IsNullOrWhiteSpace(dto.value.texto) && caller.None? ==>
      r == Unauthorized(Some("No se pudo identificar el usuario."))
    ensures r.OkObject? <==> dto.Some? && !Text.IsNullOrWhiteSpace(dto.value.texto) && caller.Some?
    ensures r.OkObject? ==>
      r.body == CommentRequest(ticketId, dto.value.texto.value, caller.value) && !Text.AllWhiteSpace(r.body.texto)
  {
    if dto.None? then BadRequest("Datos inválidos.")
    else if Text.IsNullOrWhiteSpace(dto.value.texto) then BadRequest("El comentario no puede estar vacío.")
    else if caller.None? then Unauthorized(Some("No se pudo identificar el usuario."))
    else OkObject(CommentRequest(ticketId, dto.value.texto.value, caller.value))
  }

  /** `TicketHistoryDto`; `tipoComentario` is never set by the history view and is left out. */
  datatype TicketHistoryDto = TicketHistoryDto(
    fecha: string,
    tipoEvento: TicketEventType,
    titulo: Option<string>,
    subtitulo: Option<string>,
    descripcion: Option<string>,
    estadoAnterior: Option<EstadoTicket>,
    estadoNuevo: Option<EstadoTicket>,
    visibleParaSolicitante: Option<bool>,
    visibleSoloGestores: Option<bool>)

  /**
   * A history item with the minute its date label reads back as: the view sorts by parsing the
   * label, which keeps the date down to the minute and drops the seconds.
   */
  datatype HistoryEntry = HistoryEntry(item: TicketHistoryDto, minute: int)

  /** The minute of an instant, the finest unit the label `dd/MM/yyyy hh:mm tt` keeps. */
  function MinuteOf(t: Instant): int {
    t / 60
  }

  /** The `CambioEstado` description: the reason when the event has one, otherwise the two states. */
  function CambioDescripcion(e: TicketEvent): (r: string)
    ensures !Text.IsNullOrEmpty(e.texto) ==> r == "Motivo: " + e.texto.value
    ensures Text.IsNullOrEmpty(e.texto) ==>
      r == "Cambio de estado de " + EstadoText(e.estadoAnterior) + " a " + EstadoText(e.estadoNuevo)
  {
    if !Text.IsNullOrEmpty(e.texto) then "Motivo: " + e.texto.value
    else "Cambio de estado de " + EstadoText(e.estadoAnterior) + " a " + EstadoText(e.estadoNuevo)
  }

  /**
   * An event's history item. `asunto` is the ticket's subject, `autor` the author's name or
   * "Desconocido"; the visibility flags stay null.
   */
  function EventItem(e: TicketEvent, asunto: string, autor: string, fechaLabel: Instant -> string): (r: HistoryEntry)
    ensures r.minute == MinuteOf(e.fecha) && r.item.fecha == fechaLabel(e.fecha)
    ensures r.item.tipoEvento == e.tipoEvento
    ensures r.item.estadoAnterior == e.estadoAnterior && r.item.estadoNuevo == e.estadoNuevo
    ensures r.item.visibleParaSolicitante.None? && r.item.visibleSoloGestores.None?
    ensures e.tipoEvento == CambioEstado ==> r.item.descripcion == Some(CambioDescripcion(e))
    ensures e.tipoEvento == ComentarioADD ==> r.item.descripcion == e.texto
  {
    var base := TicketHistoryDto(fechaLabel(e.fecha), e.tipoEvento, None, None, None, e.estadoAnterior, e.estadoNuevo, None, None);
    var item := match e.tipoEvento
      case Creado =>
        base.(titulo := Some("Solicitud creada"), subtitulo := Some("Por: " + autor),
              descripcion := Some("Se creó la solicitud para " + asunto))
      case CambioEstado =>
        base.(titulo := Some("Estado actualizado a " + EstadoText(e.estadoNuevo)), subtitulo := Some("Por: " + autor),
              descripcion := Some(CambioDescripcion(e)))
      case ComentarioADD =>
        base.(titulo := Some("Comentario agregado"), subtitulo := Some("Por: " + autor), descripcion := e.texto)
      case Asignado =>
        base.(titulo := Some("Gestor Asignado"), subtitulo := Some("Gestor responsable: " + autor),
              descripcion := Some("El ticket ha sido asignado a un gestor para su atención."));
    HistoryEntry(item, MinuteOf(e.fecha))
  }

  /** A comment's history item: always a `ComentarioADD`, visible to the requester, with the author's name or "Usuario". */
  function CommentItem(c: Comentario, autor: string, fechaLabel: Instant -> string): (r: HistoryEntry)
    ensures r.minute == MinuteOf(c.fecha) && r.item.fecha == fechaLabel(c.fecha)
    ensures r.item.tipoEvento == ComentarioADD && r.item.descripcion == Some(c.texto)
    ensures r.item.visibleParaSolicitante == Some(true) && r.item.visibleSoloGestores == Some(false)
    ensures r.item.estadoAnterior.None? && r.item.estadoNuevo.None?
  {
    HistoryEntry(
      TicketHistoryDto(fechaLabel(c.fecha), ComentarioADD, Some("Comentario"), Some("Por: " + autor), Some(c.texto),
                       None, None, Some(true), Some(false)),
      MinuteOf(c.fecha))
  }

  function EventItems(es: seq<TicketEvent>, asunto: string, users: map<Id, Usuario>, fechaLabel: Instant -> string)
    : (r: seq<HistoryEntry>)
    ensures |r| == |es|
    ensures forall k :: 0 <= k < |es| ==>
      r[k] == EventItem(es[k], asunto, UserRepository.NameOr(users, es[k].usuarioId, "Desconocido"), fechaLabel)
  {
    seq(|es|, k requires 0 <= k < |es| =>
      EventItem(es[k], asunto, UserRepository.NameOr(users, es[k].usuarioId, "Desconocido"), fechaLabel))
  }

  function CommentItems(cs: seq<Comentario>, users: map<Id, Usuario>, fechaLabel: Instant -> string): (r: seq<HistoryEntry>)
    ensures |r| == |cs|
    ensures forall k :: 0 <= k < |cs| ==> r[k] == CommentItem(cs[k], UserRepository.NameOr(users, cs[k].usuarioId, "Usuario"), fechaLabel)
  {
    seq(|cs|, k requires 0 <= k < |cs| => CommentItem(cs[k], UserRepository.NameOr(users, cs[k].usuarioId, "Usuario"), fechaLabel))
  }

  /** `OrderBy(x => ParseExact(x.Fecha, ..))`: earlier minute first, items of one minute in the order added. */
  predicate EarlierMinuteFirst(a: HistoryEntry, b: HistoryEntry) {
    a.minute <= b.minute
  }

  lemma EarlierMinuteFirstIsTotalPreorder()
    ensures Sorting.TotalPreorder(EarlierMinuteFirst)
  {
  }

  function Items(entries: seq<HistoryEntry>): (r: seq<TicketHistoryDto>)
    ensures |r| == |entries| && forall k :: 0 <= k < |entries| ==> r[k] == entries[k].item
  {
    seq(|entries|, k requires 0 <= k < |entries| => entries[k].item)
  }

  /**
   * The history of a ticket as entries: its events oldest first, then its comments oldest first,
   * sorted by minute.
   */
  function HistoryEntries(ticket: Ticket, es: seq<TicketEvent>, cs: seq<Comentario>, users: map<Id, Usuario>,
                          fechaLabel: Instant -> string): (r: seq<HistoryEntry>)
    ensures Sorting.SortedBy(r, EarlierMinuteFirst)
    ensures multiset(r) == multiset(EventItems(TicketEventRepository.GetByTicketIdOrderedAsc(es, ticket.id), ticket.asunto, users, fechaLabel))
      + multiset(CommentItems(ComentarioRepository.GetByTicketId(cs, ticket.id), users, fechaLabel))
    ensures |r| == |TicketEventRepository.GetByTicketIdOrderedAsc(es, ticket.id)| + |ComentarioRepository.GetByTicketId(cs, ticket.id)|
    ensures forall x ::
      (Sorting.Ties(r, EarlierMinuteFirst, x) ==
         Sorting.Ties(EventItems(TicketEventRepository.GetByTicketIdOrderedAsc(es, ticket.id), ticket.asunto, users, fechaLabel),
                      EarlierMinuteFirst, x)
         + Sorting.Ties(CommentItems(ComentarioRepository.GetByTicketId(cs, ticket.id), users, fechaLabel), EarlierMinuteFirst, x))
  {
    var events := EventItems(TicketEventRepository.GetByTicketIdOrderedAsc(es, ticket.id), ticket.asunto, users, fechaLabel);
    var comments := CommentItems(ComentarioRepository.GetByTicketId(cs, ticket.id), users, fechaLabel);
    var merged := events + comments;
    EarlierMinuteFirstIsTotalPreorder();
    Sorting.SortBySorted(merged, EarlierMinuteFirst);
    forall x ensures Sorting.Ties(Sorting.SortBy(merged, EarlierMinuteFirst), EarlierMinuteFirst, x)
      == Sorting.Ties(events, EarlierMinuteFirst, x) + Sorting.Ties(comments, EarlierMinuteFirst, x)
    {
      Sorting.SortByStable(merged, EarlierMinuteFirst, x);
      Sorting.TiesConcat(events, comments, EarlierMinuteFirst, x);
    }
    Sorting.SortBy(merged, EarlierMinuteFirst)
  }

  /** `GetHistorial`: 404 for an unknown ticket, otherwise the merged history. */
  function Historial(id: Id, ts: seq<Ticket>, es: seq<TicketEvent>, cs: seq<Comentario>, users: map<Id, Usuario>,
                     fechaLabel: Instant -> string): (r: Response<seq<TicketHistoryDto>>)
    ensures !TicketRepository.HasId(ts, id) <==> r == NotFound("El ticket no existe.")
    ensures TicketRepository.HasId(ts, id) ==> r.OkObject?
  {
    match TicketRepository.GetById(ts, id)
    case None => NotFound("El ticket no existe.")
    case Some(t) => OkObject(Items(HistoryEntries(t, es, cs, users, fechaLabel)))
  }

  /** Of the merged items, only a comment's carries the requester-visible flag. */
  lemma FlaggedEntryIsComment(entry: HistoryEntry, es: seq<TicketEvent>, cs: seq<Comentario>, asunto: string,
                              users: map<Id, Usuario>, fechaLabel: Instant -> string)
    requires entry in EventItems(es, asunto, users, fechaLabel) + CommentItems(cs, users, fechaLabel)
    requires entry.item.visibleParaSolicitante == Some(true)
    ensures exists c :: c in cs && entry.item.descripcion == Some(c.texto) && entry.item.titulo == Some("Comentario")
  {
    var events := EventItems(es, asunto, users, fechaLabel);
    var comments := CommentItems(cs, users, fechaLabel);
    assert forall j :: 0 <= j < |events| ==> events[j].item.visibleParaSolicitante.None?;
    assert entry in comments;
    var j :| 0 <= j < |comments| && comments[j] == entry;
    assert cs[j] in cs;
  }

  /**
   * A found ticket's history has one item per event of the ticket and one per comment on it, and
   * only the comments' items are marked visible to the requester.
   */
  lemma HistorialCounts(id: Id, ts: seq<Ticket>, es: seq<TicketEvent>, cs: seq<Comentario>, users: map<Id, Usuario>,
                        fechaLabel: Instant -> string)
    requires TicketRepository.HasId(ts, id)
    ensures var r := Historial(id, ts, es, cs, users, fechaLabel).body;
      |r| == |TicketEventRepository.GetByTicketIdOrderedAsc(es, id)| + |ComentarioRepository.GetByTicketId(cs, id)|
    ensures var r := Historial(id, ts, es, cs, users, fechaLabel).body;
      forall item :: item in r && item.visibleParaSolicitante == Some(true) ==>
        exists c :: c in cs && c.ticketId == id && item.descripcion == Some(c.texto) && item.titulo == Some("Comentario")
  {
    var t := TicketRepository.GetById(ts, id).value;
    var own := TicketEventRepository.GetByTicketIdOrderedAsc(es, id);
    var mine := ComentarioRepository.GetByTicketId(cs, id);
    var entries := HistoryEntries(t, es, cs, users, fechaLabel);
    var r := Items(entries);
    forall item | item in r && item.visibleParaSolicitante == Some(true)
      ensures exists c :: c in cs && c.ticketId == id && item.descripcion == Some(c.texto) && item.titulo == Some("Comentario")
    {
      var k :| 0 <= k < |r| && r[k] == item;
      assert entries[k] in multiset(EventItems(own, t.asunto, users, fechaLabel) + CommentItems(mine, users, fechaLabel));
      FlaggedEntryIsComment(entries[k], own, mine, t.asunto, users, fechaLabel);
    }
  }

  class Controller {
    const service: TicketService.Service
    const ticketEvents: TicketEventRepository.Repository

    ghost predicate Valid()
      reads service, service.tickets, service.areas, service.tipos, service.comentarios, service.users
    {
      service.Valid()
    }

    constructor (service: TicketService.Service, ticketEvents: TicketEventRepository.Repository)
      ensures this.service == service && this.ticketEvents == ticketEvents
    {
      this.service := service;
      this.ticketEvents := ticketEvents;
    }

    /** `GetPaged`: the caller's id is required; the filter is narrowed by the role rules and passed to the service. */
    method GetPaged(caller: Caller, filter: TicketRepository.TicketFilter) returns (r: Response<TicketService.PagedResult>)
      requires Valid()
      ensures caller.userId.None? ==> r == Unauthorized(Some("No se pudo identificar al usuario logueado."))
      ensures caller.userId.Some? ==>
        var q := TicketRepository.GetPaged(Some(Scope(filter, caller.rol, caller.userId.value, service.users.users)),
                                           service.tickets.tickets);
        (q.Err? ==> r == Thrown(q.error))
        && (q.Ok? ==>
              (r.OkObject? && r.body.total == q.value.totalCount && |r.body.items| == |q.value.items|
               && forall k :: 0 <= k < |q.value.items| ==>
                    r.body.items[k] == TicketService.ToTicketDto(q.value.items[k], service.areas.areas, service.tipos.tipos)))
    {
      if caller.userId.None? {
        return Unauthorized(Some("No se pudo identificar al usuario logueado."));
      }
      var userId := caller.userId.value;
      var f := filter;
      if caller.rol == Solicitante {
        f := f.(usuarioId := Some(userId));
      } else if caller.rol == Gestor {
        var usuarioActivo := UserRepository.GetById(service.users.users, userId);
        if usuarioActivo.Some? && usuarioActivo.value.areaId.Some? {
          f := f.(areaId := Some(usuarioActivo.value.areaId.value));
        }
      }
      var result := service.GetPaged(Some(f));
      if result.Err? {
        return Thrown(result.error);
      }
      r := OkObject(result.value);
    }

    /** `GetStatusSummaryAsync`: the same role rules, then the per-state counts. */
    method GetStatusSummary(caller: Caller, filter: TicketRepository.TicketFilter) returns (r: Response<map<int, nat>>)
      requires Valid()
      ensures caller.userId.None? ==> r == Unauthorized(None)
      ensures caller.userId.Some? ==>
        r == OkObject(TicketRepository.StatusSummary(Some(Scope(filter, caller.rol, caller.userId.value, service.users.users)),
                                               service.tickets.tickets).value)
    {
      if caller.userId.None? {
        return Unauthorized(None);
      }
      var userId := caller.userId.value;
      var f := filter;
      if caller.rol == Solicitante {
        f := f.(usuarioId := Some(userId));
      } else if caller.rol == Gestor {
        var gestor := UserRepository.GetById(service.users.users, userId);
        if gestor.Some? && gestor.value.areaId.Some? {
          f := f.(areaId := gestor.value.areaId);
        }
      }
      r := OkObject(TicketRepository.StatusSummary(Some(f), service.tickets.tickets).value);
    }

    /** The event loop of `GetHistorial`: one item per event, each with its author looked up. */
    method AddEventItems(es: seq<TicketEvent>, asunto: string, fechaLabel: Instant -> string) returns (r: seq<HistoryEntry>)
      requires Valid()
      ensures r == EventItems(es, asunto, service.users.users, fechaLabel)
    {
      r := [];
      var i := 0;
      while i < |es|
        invariant 0 <= i <= |es| && |r| == i
        invariant forall k :: 0 <= k < i ==>
          r[k] == EventItem(es[k], asunto, UserRepository.NameOr(service.users.users, es[k].usuarioId, "Desconocido"), fechaLabel)
      {
        var autor := UserRepository.GetById(service.users.users, es[i].usuarioId);
        var autorNombre := if autor.None? then "Desconocido" else autor.value.nombre;
        r := r + [EventItem(es[i], asunto, autorNombre, fechaLabel)];
        i := i + 1;
      }
    }

    /** The comment loop of `GetHistorial`. */
    method AddCommentItems(cs: seq<Comentario>, fechaLabel: Instant -> string) returns (r: seq<HistoryEntry>)
      requires Valid()
      ensures r == CommentItems(cs, service.users.users, fechaLabel)
    {
      r := [];
      var i := 0;
      while i < |cs|
        invariant 0 <= i <= |cs| && |r| == i
        invariant forall k :: 0 <= k < i ==>
          r[k] == CommentItem(cs[k], UserRepository.NameOr(service.users.users, cs[k].usuarioId, "Usuario"), fechaLabel)
      {
        var autor := UserRepository.GetById(service.users.users, cs[i].usuarioId);
        var autorNombre := if autor.Some? then autor.value.nombre else "Usuario";
        r := r + [CommentItem(cs[i], autorNombre, fechaLabel)];
        i := i + 1;
      }
    }

    /** `GetHistorial(id)`; `fechaLabel` is the local-time format `dd/MM/yyyy hh:mm tt`. */
    method GetHistorial(id: Id, fechaLabel: Instant -> string) returns (r: Response<seq<TicketHistoryDto>>)
      requires Valid()
      ensures r == Historial(id, service.tickets.tickets, ticketEvents.events, service.comentarios.comentarios,
                             service.users.users, fechaLabel)
    {
      var ticket := TicketRepository.GetById(service.tickets.tickets, id);
      if ticket.None? {
        return NotFound("El ticket no existe.");
      }
      var eventos := TicketEventRepository.GetByTicketIdOrderedAsc(ticketEvents.events, id);
      var comentarios := ComentarioRepository.GetByTicketId(service.comentarios.comentarios, id);
      var items := AddEventItems(eventos, ticket.value.asunto, fechaLabel);
      var commentItems := AddCommentItems(comentarios, fechaLabel);
      items := items + commentItems;
      EarlierMinuteFirstIsTotalPreorder();
      var sorted := Sorting.SortBy(items, EarlierMinuteFirst);
      r := OkObject(Items(sorted));
    }
  }
}
