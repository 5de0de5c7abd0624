/**
 * The ticket use cases: creation with its running number, editing while `Nueva`, status changes
 * with their two guards and the optional reason comment, manager assignment, and the paged list
 * mapped to its transfer shape. The clock, the fresh ids and the upload URL are parameters.
 */
module TicketService {
  import opened Wrappers
  import opened Domain
  import Text
  import Numbers
  import TicketRepository
  import AreaRepository
  import TipoSolicitudRepository
  import ComentarioRepository
  import UserRepository
  import TipoSolicitudService
  import Sorting

  /** `CreateTicketDto`; `archivoAdjunto` says whether a file was sent with the form. */
  datatype CreateTicketDto = CreateTicketDto(
    areaId: Id, tipoSolicitudId: Id, asunto: string, descripcion: string, prioridad: Prioridad, archivoAdjunto: bool)

  datatype UpdateTicketDto = UpdateTicketDto(asunto: string, descripcion: string, prioridad: Prioridad)

  datatype ChangeTicketStatusDto = ChangeTicketStatusDto(estado: EstadoTicket, motivo: Option<string>)

  /** The area part of a listed ticket: the fields of the catalogue area that `MapArea` fills. */
  datatype AreaDto = AreaDto(id: Id, nombre: string, activo: bool)

  datatype TicketDto = TicketDto(
    id: Id, numero: string, asunto: string, estado: string, prioridad: string,
    area: AreaDto, tipoSolicitud: TipoSolicitudService.TipoSolicitudDto, fechaCreacion: Instant)

  datatype PagedResult = PagedResult(items: seq<TicketDto>, total: nat, page: int, pageSize: int)

  const AreaNotFound: Failure := Failure(KeyNotFound, "Área no encontrada.")
  const TipoNotFound: Failure := Failure(KeyNotFound, "Tipo de solicitud no encontrado.")
  const TicketNotFound: Failure := Failure(KeyNotFound, "Ticket no encontrado.")
  const UserNotFound: Failure := Failure(KeyNotFound, "Usuario no encontrado.")
  const OnlyNuevaEditable: Failure := Failure(InvalidOperation, "Solo se pueden editar tickets en estado Nueva.")
  const RejectionNeedsReason: Failure := Failure(InvalidOperation, "Debe indicar el motivo del rechazo.")
  const CloseNeedsAdministrator: Failure := Failure(UnauthorizedAccess, "No tiene permisos para cerrar el ticket.")

  /** `MapArea`: a missing area becomes the empty placeholder. */
  function MapArea(area: Option<Area>): AreaDto {
    match area
    case None => AreaDto(EmptyId, "", false)
    case Some(a) => AreaDto(a.id, a.nombre, a.activo)
  }

  /** `MapTipo`: a missing request type becomes the empty placeholder. */
  function MapTipo(tipo: Option<TipoSolicitud>): TipoSolicitudService.TipoSolicitudDto {
    match tipo
    case None => TipoSolicitudService.TipoSolicitudDto(EmptyId, "", EmptyId, false)
    case Some(t) => TipoSolicitudService.MapToDto(t)
  }

  /**
   * `MapToTicketDtoAsync`: the ticket with its area and request type looked up by id. A reference that
   * names no stored row shows as the empty placeholder, and for a non-empty id only then.
   */
  function ToTicketDto(t: Ticket, areas: seq<Area>, tipos: map<Id, TipoSolicitud>): (r: TicketDto)
    requires TipoSolicitudRepository.Keyed(tipos)
    ensures r.id == t.id && r.numero == t.numero && r.asunto == t.asunto && r.fechaCreacion == t.fechaCreacion
    ensures r.estado == EstadoName(t.estado) && r.prioridad == PrioridadName(t.prioridad)
    ensures AreaRepository.HasId(areas, t.areaId) ==>
      exists a :: a in areas && a.id == t.areaId && r.area == AreaDto(a.id, a.nombre, a.activo)
    ensures !AreaRepository.HasId(areas, t.areaId) ==> r.area == AreaDto(EmptyId, "", false)
    ensures t.areaId != EmptyId ==> (r.area.id == EmptyId <==> !AreaRepository.HasId(areas, t.areaId))
    ensures t.tipoSolicitudId in tipos ==>
      r.tipoSolicitud == TipoSolicitudService.MapToDto(tipos[t.tipoSolicitudId]) && r.tipoSolicitud.id == t.tipoSolicitudId
    ensures t.tipoSolicitudId !in tipos ==> r.tipoSolicitud == TipoSolicitudService.TipoSolicitudDto(EmptyId, "", EmptyId, false)
    ensures t.tipoSolicitudId != EmptyId ==> (r.tipoSolicitud.id == EmptyId <==> t.tipoSolicitudId !in tipos)
  {
    var area := AreaRepository.GetById(areas, t.areaId);
    assert area.Some? ==> area.value in areas && area.value.id == t.areaId;
    TicketDto(t.id, t.numero, t.asunto, EstadoName(t.estado), PrioridadName(t.prioridad),
      MapArea(area), MapTipo(TipoSolicitudRepository.GetById(tipos, t.tipoSolicitudId)), t.fechaCreacion)
  }

  /** The listed state and priority read back: two tickets show the same name exactly when they hold the same value. */
  lemma TicketDtoReadsBack(t: Ticket, u: Ticket, areas: seq<Area>, tipos: map<Id, TipoSolicitud>)
    requires TipoSolicitudRepository.Keyed(tipos)
    ensures ToTicketDto(t, areas, tipos).estado == ToTicketDto(u, areas, tipos).estado <==> t.estado == u.estado
    ensures ToTicketDto(t, areas, tipos).prioridad == ToTicketDto(u, areas, tipos).prioridad <==> t.prioridad == u.prioridad
  {
  }

  /** `SOL-{year}-{sequence:0000}` with the sequence one more than the number of stored tickets. */
  function NumeroFor(year: int, count: nat): string {
    TicketRepository.YearPrefix(year) + Numbers.Padded(count + 1, 4)
  }

  /**
   * The guards of `ChangeStatusAsync`, in their order: a rejection needs a non-blank reason, and
   * closing needs a known caller with an administrator role. The current state is not consulted.
   */
  function StatusGuard(dto: ChangeTicketStatusDto, users: map<Id, Usuario>, userId: Id): (r: Option<Failure>)
    requires UserRepository.Keyed(users)
    ensures r.None? <==>
      !(dto.estado == Rechazada && Text.IsNullOrWhiteSpace(dto.motivo))
      && (dto.estado == Cerrada ==> userId in users && IsAdministrator(users[userId].rol))
    ensures dto.estado == Rechazada && Text.IsNullOrWhiteSpace(dto.motivo) ==> r == Some(RejectionNeedsReason)
    ensures dto.estado == Cerrada && userId !in users ==> r == Some(UserNotFound)
    ensures dto.estado == Cerrada && userId in users && !IsAdministrator(users[userId].rol) ==> r == Some(CloseNeedsAdministrator)
  {
    if dto.estado == Rechazada && Text.IsNullOrWhiteSpace(dto.motivo) then Some(RejectionNeedsReason)
    else if dto.estado == Cerrada then
      match UserRepository.GetById(users, userId)
      case None => Some(UserNotFound)
      case Some(u) => if IsAdministrator(u.rol) then None else Some(CloseNeedsAdministrator)
    else None
  }

  /** Writing a stored ticket back under its own number never clashes with the unique index. */
  lemma SameNumeroNotTaken(ts: seq<Ticket>, t: Ticket, u: Ticket)
    requires TicketRepository.UniqueIds(ts) && TicketRepository.UniqueNumeros(ts)
    requires t in ts && u.id == t.id && u.numero == t.numero
    ensures !TicketRepository.NumeroTakenByOther(ts, u)
  {
  }

  class Service {
    const tickets: TicketRepository.Repository
    const areas: AreaRepository.Repository
    const tipos: TipoSolicitudRepository.Repository
    const comentarios: ComentarioRepository.Repository
    const users: UserRepository.Repository

    ghost predicate Valid()
      reads tickets, areas, tipos, comentarios, users
    {
      tickets.Valid() && areas.Valid() && tipos.Valid() && comentarios.Valid() && users.Valid()
    }

    constructor (tickets: TicketRepository.Repository, areas: AreaRepository.Repository,
                 tipos: TipoSolicitudRepository.Repository, comentarios: ComentarioRepository.Repository,
                 users: UserRepository.Repository)
      ensures this.tickets == tickets && this.areas == areas && this.tipos == tipos
      ensures this.comentarios == comentarios && this.users == users
    {
      this.tickets := tickets;
      this.areas := areas;
      this.tipos := tipos;
      this.comentarios := comentarios;
      this.users := users;
    }

    /**
     * `CreateAsync`: checks that the area and the request type exist, numbers the ticket from the
     * count of all stored tickets and stores it as `Nueva`, owned by the caller, with no manager.
     * `uploadedUrl` is what the file store returns when a file was sent.
     */
    method Create(dto: CreateTicketDto, userId: Id, year: int, now: Instant, newId: Id, uploadedUrl: string)
      returns (r: Outcome<Ticket>)
      requires Valid()
      modifies tickets
      ensures Valid()
      ensures AreaRepository.GetById(areas.areas, dto.areaId).None? ==>
        r == Err(AreaNotFound) && tickets.tickets == old(tickets.tickets)
      ensures (AreaRepository.GetById(areas.areas, dto.areaId).Some?
               && TipoSolicitudRepository.GetById(tipos.tipos, dto.tipoSolicitudId).None?) ==>
        r == Err(TipoNotFound) && tickets.tickets == old(tickets.tickets)
      ensures (AreaRepository.GetById(areas.areas, dto.areaId).Some?
               && TipoSolicitudRepository.GetById(tipos.tipos, dto.tipoSolicitudId).Some?
               && (TicketRepository.HasId(old(tickets.tickets), newId)
                   || TicketRepository.HasNumero(old(tickets.tickets), NumeroFor(year, |old(tickets.tickets)|)))) ==>
        r == Err(SaveRefused) && tickets.tickets == old(tickets.tickets)
      ensures r.Ok? <==>
        AreaRepository.GetById(areas.areas, dto.areaId).Some?
        && TipoSolicitudRepository.GetById(tipos.tipos, dto.tipoSolicitudId).Some?
        && !TicketRepository.HasId(old(tickets.tickets), newId)
        && !TicketRepository.HasNumero(old(tickets.tickets), NumeroFor(year, |old(tickets.tickets)|))
      ensures r.Ok? ==> tickets.tickets == old(tickets.tickets) + [r.value]
      ensures r.Ok? ==> var t := r.value;
        t.id == newId && t.numero == NumeroFor(year, |old(tickets.tickets)|)
        && t.estado == Nueva && t.solicitanteId == userId && t.gestorAsignadoId.None?
        && t.asunto == dto.asunto && t.descripcion == dto.descripcion && t.prioridad == dto.prioridad
        && t.areaId == dto.areaId && t.tipoSolicitudId == dto.tipoSolicitudId
        && t.archivoAdjuntoUrl == (if dto.archivoAdjunto then Some(uploadedUrl) else None)
        && t.fechaCreacion == now && t.fechaActualizacion.None?
      ensures r.Err? ==> tickets.tickets == old(tickets.tickets)
    {
      if AreaRepository.GetById(areas.areas, dto.areaId).None? {
        return Err(AreaNotFound);
      }
      if TipoSolicitudRepository.GetById(tipos.tipos, dto.tipoSolicitudId).None? {
        return Err(TipoNotFound);
      }
      TicketRepository.NoFilterSelectsAll(tickets.tickets);
      var totalCount := TicketRepository.GetPaged(Some(TicketRepository.NoFilter), tickets.tickets).value.totalCount;
      var numero := NumeroFor(year, totalCount);
      var archivoUrl: Option<string> := None;
      if dto.archivoAdjunto {
        archivoUrl := Some(uploadedUrl);
      }
      var t := Ticket(newId, numero, dto.asunto, dto.descripcion, dto.prioridad, Nueva, dto.areaId,
        dto.tipoSolicitudId, userId, None, archivoUrl, now, None);
      var added := tickets.Add(Some(t));
      if added.Err? {
        return Err(added.error);
      }
      r := Ok(t);
    }

    /** `UpdateAsync`: only a ticket in `Nueva` may be edited, and only its subject, description and priority. */
    method Update(ticketId: Id, dto: UpdateTicketDto, now: Instant) returns (r: Outcome<Ticket>)
      requires Valid()
      modifies tickets
      ensures Valid()
      ensures TicketRepository.GetById(old(tickets.tickets), ticketId).None? ==>
        r == Err(TicketNotFound) && tickets.tickets == old(tickets.tickets)
      ensures var found := TicketRepository.GetById(old(tickets.tickets), ticketId);
        found.Some? && found.value.estado != Nueva ==> r == Err(OnlyNuevaEditable) && tickets.tickets == old(tickets.tickets)
      ensures var found := TicketRepository.GetById(old(tickets.tickets), ticketId);
        found.Some? && found.value.estado == Nueva ==>
          r.Ok? && tickets.tickets == TicketRepository.Replaced(old(tickets.tickets), r.value)
          && r.value.asunto == dto.asunto && r.value.descripcion == dto.descripcion
          && r.value.prioridad == dto.prioridad && r.value.fechaActualizacion == Some(now)
          && r.value.(asunto := found.value.asunto, descripcion := found.value.descripcion,
                      prioridad := found.value.prioridad, fechaActualizacion := found.value.fechaActualizacion) == found.value
    {
      var found := TicketRepository.GetById(tickets.tickets, ticketId);
      if found.None? {
        return Err(TicketNotFound);
      }
      var ticket := found.value;
      if ticket.estado != Nueva {
        return Err(OnlyNuevaEditable);
      }
      var edited := ticket.(asunto := dto.asunto, descripcion := dto.descripcion, prioridad := dto.prioridad,
        fechaActualizacion := Some(now));
      SameNumeroNotTaken(tickets.tickets, ticket, edited);
      var saved := tickets.Update(Some(edited));
      r := Ok(edited);
    }

    /**
     * `ChangeStatusAsync`: after the guards the requested state is written whatever the current
     * state is; a non-blank reason, for any target state, is then added as the caller's comment.
     */
    method ChangeStatus(ticketId: Id, dto: ChangeTicketStatusDto, userId: Id, now: Instant, comentarioId: Id)
      returns (r: Outcome<Ticket>)
      requires Valid()
      modifies tickets, comentarios
      ensures Valid()
      ensures TicketRepository.GetById(old(tickets.tickets), ticketId).None? ==>
        r == Err(TicketNotFound)
        && tickets.tickets == old(tickets.tickets) && comentarios.comentarios == old(comentarios.comentarios)
      ensures TicketRepository.GetById(old(tickets.tickets), ticketId).Some? && StatusGuard(dto, users.users, userId).Some? ==>
        r == Err(StatusGuard(dto, users.users, userId).value)
        && tickets.tickets == old(tickets.tickets) && comentarios.comentarios == old(comentarios.comentarios)
      ensures var found := TicketRepository.GetById(old(tickets.tickets), ticketId);
        found.Some? && StatusGuard(dto, users.users, userId).None? ==>
          var t := found.value.(estado := dto.estado, fechaActualizacion := Some(now));
          tickets.tickets == TicketRepository.Replaced(old(tickets.tickets), t)
          && (Text.IsNullOrWhiteSpace(dto.motivo) ==> r == Ok(t) && comentarios.comentarios == old(comentarios.comentarios))
          && (!Text.IsNullOrWhiteSpace(dto.motivo) && !ComentarioRepository.HasId(old(comentarios.comentarios), comentarioId) ==>
                r == Ok(t)
                && comentarios.comentarios == old(comentarios.comentarios) + [Comentario(comentarioId, t.id, userId, dto.motivo.value, now)])
          && (!Text.IsNullOrWhiteSpace(dto.motivo) && ComentarioRepository.HasId(old(comentarios.comentarios), comentarioId) ==>
                r == Err(SaveRefused) && comentarios.comentarios == old(comentarios.comentarios))
    {
      var found := TicketRepository.GetById(tickets.tickets, ticketId);
      if found.None? {
        return Err(TicketNotFound);
      }
      var guard := StatusGuard(dto, users.users, userId);
      if guard.Some? {
        return Err(guard.value);
      }
      var ticket := found.value.(estado := dto.estado, fechaActualizacion := Some(now));
      SameNumeroNotTaken(tickets.tickets, found.value, ticket);
      var saved := tickets.Update(Some(ticket));
      if !Text.IsNullOrWhiteSpace(dto.motivo) {
        var added := comentarios.Add(Some(Comentario(comentarioId, ticket.id, userId, dto.motivo.value, now)));
        if added.Err? {
          return Err(added.error);
        }
      }
      r := Ok(ticket);
    }

    /** `AssignManagerAsync`: sets or clears the manager in any state; nothing else but the update time changes. */
    method AssignManager(ticketId: Id, gestorId: Option<Id>, now: Instant) returns (r: Outcome<Ticket>)
      requires Valid()
      modifies tickets
      ensures Valid()
      ensures TicketRepository.GetById(old(tickets.tickets), ticketId).None? ==>
        r == Err(TicketNotFound) && tickets.tickets == old(tickets.tickets)
      ensures var found := TicketRepository.GetById(old(tickets.tickets), ticketId);
        found.Some? ==>
          r.Ok? && tickets.tickets == TicketRepository.Replaced(old(tickets.tickets), r.value)
          && r.value.gestorAsignadoId == gestorId && r.value.fechaActualizacion == Some(now)
          && r.value.(gestorAsignadoId := found.value.gestorAsignadoId,
                      fechaActualizacion := found.value.fechaActualizacion) == found.value
    {
      var found := TicketRepository.GetById(tickets.tickets, ticketId);
      if found.None? {
        return Err(TicketNotFound);
      }
      var ticket := found.value.(gestorAsignadoId := gestorId, fechaActualizacion := Some(now));
      SameNumeroNotTaken(tickets.tickets, found.value, ticket);
      var saved := tickets.Update(Some(ticket));
      r := Ok(ticket);
    }

    /** The `foreach` of `GetPagedAsync`: each ticket of the page mapped in turn. */
    method MapPage(ts: seq<Ticket>) returns (items: seq<TicketDto>)
      requires tipos.Valid()
      ensures |items| == |ts|
      ensures forall k :: 0 <= k < |ts| ==> items[k] == ToTicketDto(ts[k], areas.areas, tipos.tipos)
    {
      items := [];
      var i := 0;
      while i < |ts|
        invariant 0 <= i <= |ts|
        invariant |items| == i
        invariant forall k :: 0 <= k < i ==> items[k] == ToTicketDto(ts[k], areas.areas, tipos.tipos)
      {
        items := items + [ToTicketDto(ts[i], areas.areas, tipos.tipos)];
        i := i + 1;
      }
    }

    /**
     * `GetPagedAsync`: the repository's page mapped ticket by ticket, with its total; the page and
     * page size reported are the ones the caller sent, not the ones the repository applied.
     */
    method GetPaged(filter: Option<TicketRepository.TicketFilter>) returns (r: Outcome<PagedResult>)
      requires Valid()
      ensures TicketRepository.GetPaged(filter, tickets.tickets).Err? ==> r == Err(TicketRepository.GetPaged(filter, tickets.tickets).error)
      ensures TicketRepository.GetPaged(filter, tickets.tickets).Ok? ==>
        (var q := TicketRepository.GetPaged(filter, tickets.tickets).value;
         r.Ok? && r.value.total == q.totalCount
         && r.value.page == filter.value.page && r.value.pageSize == filter.value.pageSize
         && |r.value.items| == |q.items|
         && forall k :: 0 <= k < |q.items| ==> r.value.items[k] == ToTicketDto(q.items[k], areas.areas, tipos.tipos))
      ensures r.Ok? ==> forall j, k :: 0 <= j < k < |r.value.items| ==> r.value.items[j].fechaCreacion >= r.value.items[k].fechaCreacion
    {
      var q := TicketRepository.GetPaged(filter, tickets.tickets);
      if q.Err? {
        return Err(q.error);
      }
      var ts := q.value.items;
      TicketRepository.PagedItemsNewestFirst(filter.value, tickets.tickets);
      assert Sorting.SortedBy(ts, TicketRepository.NewerFirst);
      var items := MapPage(ts);
      r := Ok(PagedResult(items, q.value.totalCount, filter.value.page, filter.value.pageSize));
    }
  }

  /** The number's suffix reads back as the sequence it was made from. */
  lemma NumeroReadsBack(year: int, count: nat)
    requires count + 1 <= Numbers.Int32Max
    ensures var n := NumeroFor(year, count); var p := TicketRepository.YearPrefix(year);
      Text.StartsWith(n, p) && Numbers.ParseInt32(n[|p|..]) == Some(count + 1)
  {
    var p := TicketRepository.YearPrefix(year);
    var n := NumeroFor(year, count);
    assert n[..|p|] == p;
    assert n[|p|..] == Numbers.Padded(count + 1, 4);
    Numbers.PaddedRoundTrip(count + 1, 4);
  }

  /** Equal numbers of one year come from equal counts. */
  lemma NumeroInjective(year: int, a: nat, b: nat)
    requires NumeroFor(year, a) == NumeroFor(year, b)
    ensures a == b
  {
    var p := TicketRepository.YearPrefix(year);
    assert NumeroFor(year, a)[|p|..] == Numbers.Padded(a + 1, 4);
    assert NumeroFor(year, b)[|p|..] == Numbers.Padded(b + 1, 4);
  }

  /**
   * Creation numbers from the count of every stored ticket, not from the per-year allocator: with
   * only other years' tickets stored the allocator would hand out 1, creation does not.
   */
  lemma CreationIgnoresAllocator(ts: seq<Ticket>, year: int)
    requires ts != []
    requires forall i :: 0 <= i < |ts| ==> !Text.StartsWith(ts[i].numero, TicketRepository.YearPrefix(year))
    ensures TicketRepository.NextSequenceForYear(ts, year) == 1
    ensures NumeroFor(year, |ts|) != TicketRepository.YearPrefix(year) + Numbers.Padded(TicketRepository.NextSequenceForYear(ts, year), 4)
  {
    TicketRepository.NextSequenceNoMatch(ts, year);
    if NumeroFor(year, |ts|) == NumeroFor(year, 0) {
      NumeroInjective(year, |ts|, 0);
    }
  }

  /**
   * Deleting the first of two tickets created in a row leaves a table whose count points at the
   * number still held by the second, so the next creation is refused by the unique index.
   */
  lemma NumberReusedAfterDelete(year: int)
    ensures var t1 := TicketRepository.NumberedTicket(1, NumeroFor(year, 0));
      var t2 := TicketRepository.NumberedTicket(2, NumeroFor(year, 1));
      TicketRepository.UniqueIds([t1, t2]) && TicketRepository.UniqueNumeros([t1, t2])
      && Filter([t1, t2], (x: Ticket) => x.id != 1) == [t2]
      && TicketRepository.HasNumero([t2], NumeroFor(year, |[t2]|))
  {
    var t1 := TicketRepository.NumberedTicket(1, NumeroFor(year, 0));
    var t2 := TicketRepository.NumberedTicket(2, NumeroFor(year, 1));
    if NumeroFor(year, 0) == NumeroFor(year, 1) {
      NumeroInjective(year, 0, 1);
    }
    assert [t1, t2][1..] == [t2];
    assert [t2][1..] == [];
    assert [t2][0].numero == NumeroFor(year, 1);
  }

  /** A ticket may go back to any open state from any state, `Cerrada` and `Rechazada` included. */
  lemma ReopeningNeedsNoGuard(dto: ChangeTicketStatusDto, users: map<Id, Usuario>, userId: Id)
    requires UserRepository.Keyed(users)
    requires dto.estado == Nueva || dto.estado == EnProceso || dto.estado == Resuelta
    ensures StatusGuard(dto, users, userId).None?
  {
  }
}
