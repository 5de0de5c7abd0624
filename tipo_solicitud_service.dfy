/**
 * The request-type catalogue service: the listing by area with the "has tickets" flag, create, update,
 * activation, and the delete that soft-deletes a type still referenced by tickets and removes one that
 * nothing references.
 */
module TipoSolicitudService {
  import opened Wrappers
  import opened Domain
  import TicketRepository
  import AreaRepository
  import TipoSolicitudRepository
  import SystemEventRepository

  datatype TipoSolicitudDto = TipoSolicitudDto(id: Id, nombre: string, areaId: Id, activo: bool)

  /** A row of the listing: the type and whether any ticket uses it, so the client can hide "delete". */
  datatype TipoSolicitudListItem = TipoSolicitudListItem(tipo: TipoSolicitudDto, tieneTickets: bool)

  function TipoIdNotFound(id: Id): Failure {
    Failure(KeyNotFound, "TipoSolicitud con id '" + IdText(id) + "' no encontrada.")
  }

  const OpenTicketsOfType: Failure :=
    Failure(InvalidOperation, "No se puede eliminar el tipo: existen tickets pendientes.")

  /** `MapToDto`: the type's own fields. */
  function MapToDto(t: TipoSolicitud): TipoSolicitudDto {
    TipoSolicitudDto(t.id, t.nombre, t.areaId, t.activo)
  }

  /** Some ticket refers to the type. */
  predicate HasTickets(ts: seq<Ticket>, tipoId: Id) {
    exists t :: t in ts && t.tipoSolicitudId == tipoId
  }

  /** Some ticket of the type is neither closed nor rejected. */
  predicate HasOpenTickets(ts: seq<Ticket>, tipoId: Id) {
    exists t :: t in ts && t.tipoSolicitudId == tipoId && !IsFinished(t.estado)
  }

  /** The listing narrows to one area only for an id that is present and not the empty id. */
  predicate FiltersByArea(areaId: Option<Id>) {
    areaId.Some? && areaId.value != EmptyId
  }

  /** The types the listing shows, in the order of the base list. */
  function Scoped(base: seq<TipoSolicitud>, areaId: Option<Id>): (r: seq<TipoSolicitud>)
    ensures FiltersByArea(areaId) ==> forall t :: t in r <==> t in base && t.areaId == areaId.value
    ensures !FiltersByArea(areaId) ==> r == base
  {
    if FiltersByArea(areaId) then Filter(base, (t: TipoSolicitud) => t.areaId == areaId.value) else base
  }

  /** The listing row for one type. */
  function ListItem(t: TipoSolicitud, ts: seq<Ticket>): (r: TipoSolicitudListItem)
    ensures r.tipo == MapToDto(t)
    ensures r.tieneTickets <==> exists k :: 0 <= k < |ts| && ts[k].tipoSolicitudId == t.id
  {
    var used := HasTickets(ts, t.id);
    assert used <==> exists k :: 0 <= k < |ts| && ts[k].tipoSolicitudId == t.id by {
      if used {
        var x :| x in ts && x.tipoSolicitudId == t.id;
        var k :| 0 <= k < |ts| && ts[k] == x;
      }
    }
    TipoSolicitudListItem(MapToDto(t), used)
  }

  class Service {
    const tipos: TipoSolicitudRepository.Repository
    const tickets: TicketRepository.Repository
    const areas: AreaRepository.Repository
    const events: SystemEventRepository.Repository

    ghost predicate Valid()
      reads tipos, tickets, areas, events
    {
      tipos.Valid() && tickets.Valid() && areas.Valid() && events.Valid()
    }

    constructor (tipos: TipoSolicitudRepository.Repository, tickets: TicketRepository.Repository,
                 areas: AreaRepository.Repository, events: SystemEventRepository.Repository)
      ensures this.tipos == tipos && this.tickets == tickets && this.areas == areas && this.events == events
    {
      this.tipos := tipos;
      this.tickets := tickets;
      this.areas := areas;
      this.events := events;
    }

    /**
     * `GetAllAsync`: `base` is the list the repository returns for the inactive flag. It is narrowed to
     * one area when an area id is given, and each type is listed with whether any ticket uses it.
     */
    method GetAll(base: seq<TipoSolicitud>, areaId: Option<Id>) returns (r: seq<TipoSolicitudListItem>)
      ensures var entities := Scoped(base, areaId);
        |r| == |entities| && forall i :: 0 <= i < |r| ==> r[i] == ListItem(entities[i], tickets.tickets)
    {
      var entities := Scoped(base, areaId);
      var dtos: seq<TipoSolicitudListItem> := [];
      var i := 0;
      while i < |entities|
        invariant 0 <= i <= |entities|
        invariant |dtos| == i
        invariant forall j :: 0 <= j < i ==> dtos[j] == ListItem(entities[j], tickets.tickets)
      {
        var dto := MapToDto(entities[i]);
        var tieneTickets := HasTickets(tickets.tickets, entities[i].id);
        dtos := dtos + [TipoSolicitudListItem(dto, tieneTickets)];
        i := i + 1;
      }
      r := dtos;
    }

    /** `RegistrarEvento`: one audit event when the caller's id claim parses, none otherwise. */
    method RegistrarEvento(caller: Option<Id>, eventId: Id, tipo: SystemEventType, detalles: string, now: Instant)
      requires events.Valid() && !SystemEventRepository.HasId(events.events, eventId)
      modifies events
      ensures events.Valid()
      ensures events.events == old(events.events) + SystemEventRepository.AuditEntry(caller, eventId, tipo, detalles, now)
    {
      if caller.Some? {
        var _ := events.Add(SystemEvent(eventId, caller.value, tipo, detalles, now));
      }
    }

    /**
     * `CreateAsync`: keeps the id sent unless it is the empty id, in which case `freshId` is used. The
     * database refuses a repeated id and an area id that names no area.
     */
    method Create(dto: Option<TipoSolicitudDto>, freshId: Id, caller: Option<Id>, eventId: Id, now: Instant)
      returns (r: Outcome<TipoSolicitudDto>)
      requires Valid() && !SystemEventRepository.HasId(events.events, eventId)
      modifies tipos, events
      ensures Valid()
      ensures dto.None? ==> r == Err(NullArgument("dto"))
      ensures dto.Some? ==> var id := if dto.value.id == EmptyId then freshId else dto.value.id;
        var entity := TipoSolicitud(id, dto.value.nombre, dto.value.areaId, dto.value.activo);
        (id in old(tipos.tipos) || !AreaRepository.HasId(areas.areas, dto.value.areaId) ==> r == Err(SaveRefused))
        && (id !in old(tipos.tipos) && AreaRepository.HasId(areas.areas, dto.value.areaId) ==>
              r == Ok(MapToDto(entity))
              && tipos.tipos == old(tipos.tipos)[id := entity]
              && events.events == old(events.events)
                 + SystemEventRepository.AuditEntry(caller, eventId, TipoSolicitudCreado, entity.nombre, now))
      ensures r.Err? ==> tipos.tipos == old(tipos.tipos) && events.events == old(events.events)
    {
      if dto.None? {
        return Err(NullArgument("dto"));
      }
      var d := dto.value;
      var entity := TipoSolicitud(if d.id == EmptyId then freshId else d.id, d.nombre, d.areaId, d.activo);
      if entity.id in tipos.tipos || !AreaRepository.HasId(areas.areas, entity.areaId) {
        // the primary key, or the foreign key to the area
        return Err(SaveRefused);
      }
      var _ := tipos.Add(Some(entity));
      RegistrarEvento(caller, eventId, TipoSolicitudCreado, entity.nombre, now);
      r := Ok(MapToDto(entity));
    }

    /** `UpdateAsync`: overwrites exactly the name, the area and the active flag of a stored type. */
    method Update(tipoId: Id, dto: Option<TipoSolicitudDto>, caller: Option<Id>, eventId: Id, now: Instant)
      returns (r: Outcome<TipoSolicitudDto>)
      requires Valid() && !SystemEventRepository.HasId(events.events, eventId)
      modifies tipos, events
      ensures Valid()
      ensures dto.None? ==> r == Err(NullArgument("dto"))
      ensures dto.Some? && tipoId !in old(tipos.tipos) ==> r == Err(TipoIdNotFound(tipoId))
      ensures (dto.Some? && tipoId in old(tipos.tipos) && !AreaRepository.HasId(areas.areas, dto.value.areaId)) ==>
        r == Err(SaveRefused)
      ensures r.Err? ==> tipos.tipos == old(tipos.tipos) && events.events == old(events.events)
      ensures (dto.Some? && tipoId in old(tipos.tipos) && AreaRepository.HasId(areas.areas, dto.value.areaId)) ==>
        var updated := old(tipos.tipos)[tipoId].(nombre := dto.value.nombre, areaId := dto.value.areaId,
                                                 activo := dto.value.activo);
        r == Ok(MapToDto(updated)) && updated.id == tipoId
        && tipos.tipos == old(tipos.tipos)[tipoId := updated]
        && events.events == old(events.events)
           + SystemEventRepository.AuditEntry(caller, eventId, TipoSolicitudEstadoCambio, dto.value.nombre, now)
    {
      if dto.None? {
        return Err(NullArgument("dto"));
      }
      var existing := TipoSolicitudRepository.GetById(tipos.tipos, tipoId);
      if existing.None? {
        return Err(TipoIdNotFound(tipoId));
      }
      var d := dto.value;
      var updated := existing.value.(nombre := d.nombre, areaId := d.areaId, activo := d.activo);
      if !AreaRepository.HasId(areas.areas, updated.areaId) {
        // the foreign key to the area
        return Err(SaveRefused);
      }
      var _ := tipos.Update(Some(updated));
      RegistrarEvento(caller, eventId, TipoSolicitudEstadoCambio, updated.nombre, now);
      r := Ok(MapToDto(updated));
    }

    /**
     * `ActivateAsync` (`activo` true, the detail ends in "(Activado)") and `DeactivateAsync` (`activo`
     * false, "(Desactivado)"): only the flag of a stored type changes.
     */
    method SetActive(tipoId: Id, activo: bool, caller: Option<Id>, eventId: Id, now: Instant) returns (r: Outcome<()>)
      requires Valid() && !SystemEventRepository.HasId(events.events, eventId)
      modifies tipos, events
      ensures Valid()
      ensures tipoId !in old(tipos.tipos) ==>
        r == Err(TipoIdNotFound(tipoId)) && tipos.tipos == old(tipos.tipos) && events.events == old(events.events)
      ensures tipoId in old(tipos.tipos) ==>
        var existing := old(tipos.tipos)[tipoId];
        r == Ok(()) && tipos.tipos == old(tipos.tipos)[tipoId := existing.(activo := activo)]
        && events.events == old(events.events) + SystemEventRepository.AuditEntry(caller, eventId,
             TipoSolicitudEstadoCambio, existing.nombre + (if activo then " (Activado)" else " (Desactivado)"), now)
    {
      var existing := TipoSolicitudRepository.GetById(tipos.tipos, tipoId);
      if existing.None? {
        return Err(TipoIdNotFound(tipoId));
      }
      var t := existing.value.(activo := activo);
      RegistrarEvento(caller, eventId, TipoSolicitudEstadoCambio,
        t.nombre + (if activo then " (Activado)" else " (Desactivado)"), now);
      var _ := tipos.Update(Some(t));
      r := Ok(());
    }

    /**
     * `DeleteAsync`: refused while a ticket of the type is open, before the type is even looked up. A
     * type some ticket still uses is only deactivated; an unused one is removed. Both log the deletion.
     */
    method Delete(tipoId: Id, caller: Option<Id>, eventId: Id, now: Instant) returns (r: Outcome<()>)
      requires Valid() && !SystemEventRepository.HasId(events.events, eventId)
      modifies tipos, events
      ensures Valid()
      ensures HasOpenTickets(tickets.tickets, tipoId) ==> r == Err(OpenTicketsOfType)
      ensures !HasOpenTickets(tickets.tickets, tipoId) && tipoId !in old(tipos.tipos) ==> r == Err(TipoIdNotFound(tipoId))
      ensures r.Err? ==> tipos.tipos == old(tipos.tipos) && events.events == old(events.events)
      ensures r.Ok? <==> !HasOpenTickets(tickets.tickets, tipoId) && tipoId in old(tipos.tipos)
      ensures r.Ok? && HasTickets(tickets.tickets, tipoId) ==>
        tipos.tipos == old(tipos.tipos)[tipoId := old(tipos.tipos)[tipoId].(activo := false)]
      ensures r.Ok? && !HasTickets(tickets.tickets, tipoId) ==> tipos.tipos == old(tipos.tipos) - {tipoId}
      ensures r.Ok? ==>
        events.events == old(events.events)
          + SystemEventRepository.AuditEntry(caller, eventId, TipoSolicitudEliminado, old(tipos.tipos)[tipoId].nombre, now)
    {
      if HasOpenTickets(tickets.tickets, tipoId) {
        return Err(OpenTicketsOfType);
      }
      var existing := TipoSolicitudRepository.GetById(tipos.tipos, tipoId);
      if existing.None? {
        return Err(TipoIdNotFound(tipoId));
      }
      if HasTickets(tickets.tickets, tipoId) {
        var _ := tipos.Update(Some(existing.value.(activo := false)));
      } else {
        var _ := tipos.Delete(existing, false);
      }
      RegistrarEvento(caller, eventId, TipoSolicitudEliminado, existing.value.nombre, now);
      r := Ok(());
    }
  }
}
