/**
 * The area catalogue service: one responsible manager per active area, a three-letter prefix derived
 * from the name, activation and deactivation, hard delete guarded by open tickets and by the foreign
 * keys, removal of the responsible manager, and the audit event each change leaves behind.
 */
module AreaService {
  import opened Wrappers
  import opened Domain
  import Text
  import TicketRepository
  import AreaRepository
  import UserRepository
  import SystemEventRepository

  datatype CreateAreaDto = CreateAreaDto(nombre: string, responsableId: Option<Id>)

  datatype AreaStatsDto = AreaStatsDto(total: int, activas: int, completadas: int)

  datatype AreaDto = AreaDto(
    id: Id,
    nombre: string,
    prefijo: string,
    activo: bool,
    responsableId: Option<Id>,
    stats: AreaStatsDto)

  function ResponsableTaken(nombre: string): Failure {
    Failure(InvalidOperation, "Este usuario ya es responsable del área '" + nombre
      + "'. Un gestor solo puede estar vinculado a un área a la vez.")
  }

  function AreaIdNotFound(areaId: Id): Failure {
    Failure(KeyNotFound, "Área con id '" + IdText(areaId) + "' no encontrada.")
  }

  const AreaNotFound: Failure := Failure(KeyNotFound, "Área no encontrada")

  const PendingTickets: Failure :=
    Failure(InvalidOperation, "No se puede desactivar/eliminar el área. Existen tickets en proceso o nuevos.")

  const HasHistory: Failure := Failure(InvalidOperation,
    "No se puede eliminar físicamente: esta área tiene historial de tickets. Se recomienda desactivarla en su lugar.")

  /** What reading a member of a null reference throws. */
  const NullDereference: Failure := Failure(NullReference, "Object reference not set to an instance of an object.")

  /** The area names `responsableId` as its manager and is not the area being edited. */
  predicate HoldsResponsable(a: Area, responsableId: Id, areaIdActual: Option<Id>) {
    a.responsableId == Some(responsableId) && Some(a.id) != areaIdActual
  }

  /**
   * `ValidarResponsableUnico`: a manager may be responsible for one area only. The areas searched are
   * those of the default listing, that is the active ones, so an inactive area never blocks.
   */
  function ValidarResponsableUnico(areas: seq<Area>, responsableId: Option<Id>, areaIdActual: Option<Id>)
    : (r: Option<Failure>)
    ensures responsableId.None? ==> r.None?
    ensures responsableId.Some? ==>
      (r.None? <==> forall a :: a in areas && a.activo ==> !HoldsResponsable(a, responsableId.value, areaIdActual))
    ensures r.Some? ==> responsableId.Some? && exists a :: (a in areas && a.activo
      && HoldsResponsable(a, responsableId.value, areaIdActual) && r.value == ResponsableTaken(a.nombre))
  {
    if responsableId.None? then None
    else
      var listed := AreaRepository.GetAll(areas, false);
      match FirstIndex(listed, (a: Area) => HoldsResponsable(a, responsableId.value, areaIdActual))
      case None =>
        assert forall a :: a in listed ==> !HoldsResponsable(a, responsableId.value, areaIdActual);
        None
      case Some(k) =>
        assert listed[k] in listed;
        Some(ResponsableTaken(listed[k].nombre))
  }

  /** `GeneratePrefix`: "GEN" for a blank name, otherwise the first three characters of the trimmed, upper-cased name. */
  function GeneratePrefix(nombre: string): (r: string)
    ensures Text.AllWhiteSpace(nombre) ==> r == "GEN"
    ensures !Text.AllWhiteSpace(nombre) ==>
      Text.StartsWith(Text.ToUpper(Text.Trim(nombre)), r)
      && |r| == (if |Text.Trim(nombre)| >= 3 then 3 else |Text.Trim(nombre)|)
  {
    if Text.IsNullOrWhiteSpace(Some(nombre)) then "GEN"
    else
      var limpio := Text.ToUpper(Text.Trim(nombre));
      if |limpio| >= 3 then limpio[..3] else limpio
  }

  /**
   * Every prefix is one to three upper-case characters that do not start with white space; it may end
   * with one (a name like "a b" gives "A B", and "ab c" gives "AB "), so it is not trimmed again.
   */
  lemma PrefixShape(nombre: string)
    ensures var r := GeneratePrefix(nombre);
      1 <= |r| <= 3 && !Text.IsWhiteSpace(r[0]) && Text.ToUpper(r) == r
  {
    var r := GeneratePrefix(nombre);
    if !Text.AllWhiteSpace(nombre) {
      var t := Text.Trim(nombre);
      var limpio := Text.ToUpper(t);
      Text.UpperKeepsWhiteSpace(t[0]);
      assert r[0] == limpio[0] == Text.ToUpperChar(t[0]);
      Text.ToUpperIdempotent(t);
      forall i | 0 <= i < |r| ensures Text.ToUpper(r)[i] == r[i] {
        assert r[i] == limpio[i];
        assert Text.ToUpper(limpio)[i] == Text.ToUpperChar(limpio[i]);
      }
    }
  }

  /** The prefix is a function of the trimmed name only: surrounding white space never changes it. */
  lemma PrefixIgnoresSurroundingSpace(nombre: string)
    ensures GeneratePrefix(Text.Trim(nombre)) == GeneratePrefix(nombre)
  {
    var t := Text.Trim(nombre);
    if !Text.AllWhiteSpace(nombre) {
      assert !Text.AllWhiteSpace(t) by {
        assert !Text.IsWhiteSpace(t[0]);
      }
      TrimOfTrimmed(t);
      var limpio := Text.ToUpper(t);
      assert GeneratePrefix(t) == if |limpio| >= 3 then limpio[..3] else limpio;
      assert GeneratePrefix(nombre) == if |limpio| >= 3 then limpio[..3] else limpio;
    } else {
      assert t == [];
    }
  }

  /** A string with no white space at either end is its own trim. */
  lemma TrimOfTrimmed(t: string)
    requires t == [] || (!Text.IsWhiteSpace(t[0]) && !Text.IsWhiteSpace(t[|t| - 1]))
    ensures Text.Trim(t) == t
  {
  }

  /** A ticket counted as completed in the area statistics. */
  predicate Completed(t: Ticket) {
    IsFinished(t.estado)
  }

  /** A ticket still in progress, neither closed nor rejected. */
  predicate InProgress(t: Ticket) {
    !IsFinished(t.estado)
  }

  /** The tickets of the area, as the `Tickets` navigation of the area loads them. */
  function TicketsOf(ts: seq<Ticket>, areaId: Id): (r: seq<Ticket>)
    ensures forall t :: t in r <==> t in ts && t.areaId == areaId
  {
    Filter(ts, (t: Ticket) => t.areaId == areaId)
  }

  /**
   * The statistics of `MapToDto`: the active count is taken as total minus completed, and it is exactly
   * the number of tickets that are neither closed nor rejected.
   */
  function Stats(ts: seq<Ticket>): (r: AreaStatsDto)
    ensures r.total == |ts|
    ensures r.completadas == |Filter(ts, Completed)|
    ensures r.activas == |Filter(ts, InProgress)|
    ensures 0 <= r.activas && 0 <= r.completadas && r.activas + r.completadas == r.total
  {
    var completadas := |Filter(ts, Completed)|;
    FilterComplement(ts, Completed, InProgress);
    AreaStatsDto(|ts|, |ts| - completadas, completadas)
  }

  /** `MapToDto`: the area's own fields and the statistics of the tickets it carries. */
  function MapToDto(a: Area, ts: seq<Ticket>): (r: AreaDto)
    ensures r.id == a.id && r.nombre == a.nombre && r.prefijo == a.prefijo
    ensures r.activo == a.activo && r.responsableId == a.responsableId
    ensures r.stats.total == |ts| && r.stats.activas + r.stats.completadas == |ts|
  {
    AreaDto(a.id, a.nombre, a.prefijo, a.activo, a.responsableId, Stats(ts))
  }

  /** A ticket of the area that still needs work. */
  predicate PendingIn(t: Ticket, areaId: Id) {
    t.areaId == areaId && !IsFinished(t.estado)
  }

  /** `ValidarTicketsPendientes`: the area may be deactivated or deleted only when all its tickets are closed or rejected. */
  function ValidarTicketsPendientes(ts: seq<Ticket>, areaId: Id): (r: Option<Failure>)
    ensures r.None? <==> forall t :: t in ts && t.areaId == areaId ==> IsFinished(t.estado)
    ensures r.Some? ==> r.value == PendingTickets
  {
    var all := TicketRepository.GetAll(ts);
    assert forall t :: t in all <==> t in ts by {
      forall t ensures t in all <==> t in ts {
        assert t in all <==> t in multiset(all);
      }
    }
    if exists t :: t in all && PendingIn(t, areaId) then Some(PendingTickets) else None
  }

  /** The id names a stored user. */
  predicate UserExists(users: map<Id, Usuario>, id: Option<Id>) {
    id.Some? && id.value in users
  }

  /** The user table with the named user, when stored, linked to the area; every other row is unchanged. */
  function LinkResponsable(users: map<Id, Usuario>, responsableId: Option<Id>, areaId: Id): (r: map<Id, Usuario>)
    ensures r.Keys == users.Keys
    ensures forall id :: id in users && Some(id) != responsableId ==> r[id] == users[id]
    ensures UserExists(users, responsableId) ==>
      r[responsableId.value] == users[responsableId.value].(areaId := Some(areaId))
  {
    if UserExists(users, responsableId) then
      users[responsableId.value := users[responsableId.value].(areaId := Some(areaId))]
    else users
  }

  /** The area table with the manager of the area `areaId` cleared; every other field and row is unchanged. */
  function ClearManager(areas: seq<Area>, areaId: Id): (r: seq<Area>)
    ensures |r| == |areas|
    ensures forall i :: 0 <= i < |areas| ==>
      r[i] == if areas[i].id == areaId then areas[i].(responsableId := None) else areas[i]
  {
    seq(|areas|, i requires 0 <= i < |areas| =>
      if areas[i].id == areaId then areas[i].(responsableId := None) else areas[i])
  }

  /** With unique ids, writing back the stored area with its manager cleared is clearing that area's manager. */
  lemma ReplacedClearsManager(areas: seq<Area>, a: Area)
    requires AreaRepository.UniqueIds(areas) && a in areas
    ensures AreaRepository.Replaced(areas, a.(responsableId := None)) == ClearManager(areas, a.id)
  {
    var k :| 0 <= k < |areas| && areas[k] == a;
    assert forall i :: 0 <= i < |areas| && areas[i].id == a.id ==> i == k;
  }

  /**
   * The tables `QuitarResponsableArea` leaves: when both the area and the user exist, the area has no
   * manager and the user no area; the user need not be that area's manager. Otherwise nothing changes.
   */
  function Unlinked(areas: seq<Area>, users: map<Id, Usuario>, areaId: Id, usuarioId: Id)
    : (r: (seq<Area>, map<Id, Usuario>))
    ensures AreaRepository.HasId(areas, areaId) && usuarioId in users ==>
      r == (ClearManager(areas, areaId), users[usuarioId := users[usuarioId].(areaId := None)])
    ensures !(AreaRepository.HasId(areas, areaId) && usuarioId in users) ==> r == (areas, users)
    ensures forall i :: 0 <= i < |r.0| ==> r.0[i].id == areas[i].id
  {
    if AreaRepository.HasId(areas, areaId) && usuarioId in users then
      (ClearManager(areas, areaId), users[usuarioId := users[usuarioId].(areaId := None)])
    else (areas, users)
  }

  /**
   * Removing a manager twice leaves the tables as removing it once: the second call finds nothing left
   * to clear; only the audit log grows again.
   */
  lemma UnlinkIdempotent(areas: seq<Area>, users: map<Id, Usuario>, areaId: Id, usuarioId: Id)
    ensures var once := Unlinked(areas, users, areaId, usuarioId);
      Unlinked(once.0, once.1, areaId, usuarioId) == once
  {
    var once := Unlinked(areas, users, areaId, usuarioId);
    if AreaRepository.HasId(areas, areaId) && usuarioId in users {
      var k :| 0 <= k < |areas| && areas[k].id == areaId;
      assert once.0[k].id == areaId;
      assert AreaRepository.HasId(once.0, areaId) && usuarioId in once.1;
      assert once.1[usuarioId := once.1[usuarioId].(areaId := None)] == once.1;
      var again := ClearManager(once.0, areaId);
      assert again == once.0 by {
        forall i | 0 <= i < |once.0| ensures again[i] == once.0[i] {
        }
      }
    }
  }

  /** The foreign keys on an area's row: its tickets, the users placed in it and, as reported, its request types. */
  predicate Referenced(ts: seq<Ticket>, users: map<Id, Usuario>, areaId: Id, tiposReferencing: bool) {
    tiposReferencing
    || (exists t :: t in ts && t.areaId == areaId)
    || (exists id :: id in users && users[id].areaId == Some(areaId))
  }

  class Service {
    const areas: AreaRepository.Repository
    const tickets: TicketRepository.Repository
    const users: UserRepository.Repository
    const events: SystemEventRepository.Repository

    ghost predicate Valid()
      reads areas, tickets, users, events
    {
      areas.Valid() && tickets.Valid() && users.Valid() && events.Valid()
    }

    constructor (areas: AreaRepository.Repository, tickets: TicketRepository.Repository,
                 users: UserRepository.Repository, events: SystemEventRepository.Repository)
      ensures this.areas == areas && this.tickets == tickets && this.users == users && this.events == events
    {
      this.areas := areas;
      this.tickets := tickets;
      this.users := users;
      this.events := events;
    }

    /**
     * `RegistrarEvento`: `caller` is the id read from the caller's first present id claim, when it
     * parses; an unparsable or missing claim logs nothing.
     */
    method RegistrarEvento(caller: Option<Id>, eventId: Id, tipo: SystemEventType, detalles: string, now: Instant)
      requires events.Valid() && !SystemEventRepository.HasId(events.events, eventId)
      modifies events
      ensures events.Valid()
      ensures events.events == old(events.events) + SystemEventRepository.AuditEntry(caller, eventId, tipo, detalles, now)
    {
      if caller.Some? {
        var _ := events.Add(SystemEvent(eventId, caller.value, tipo, detalles, now));
      }
    }

    /** Places the named manager, when stored, in the area: the user half of creating or editing an area. */
    method PlaceResponsable(responsableId: Option<Id>, areaId: Id)
      requires users.Valid()
      modifies users
      ensures users.Valid()
      ensures users.users == LinkResponsable(old(users.users), responsableId, areaId)
    {
      if responsableId.Some? {
        var usuario := UserRepository.GetById(users.users, responsableId.value);
        if usuario.Some? {
          var _ := users.Update(Some(usuario.value.(areaId := Some(areaId))));
        }
      }
    }

    /**
     * `CreateAsync`: refuses a manager who already runs an active area, stores the area active with its
     * generated prefix, places the manager in it and logs `AreaCreada`. The new area has no tickets yet.
     */
    method Create(dto: CreateAreaDto, newId: Id, caller: Option<Id>, eventId: Id, now: Instant)
      returns (r: Outcome<AreaDto>)
      requires Valid() && !SystemEventRepository.HasId(events.events, eventId)
      modifies areas, users, events
      ensures Valid()
      ensures var conflict := ValidarResponsableUnico(old(areas.areas), dto.responsableId, None);
        conflict.Some? ==> r == Err(conflict.value)
      ensures (ValidarResponsableUnico(old(areas.areas), dto.responsableId, None).None?
               && (AreaRepository.HasId(old(areas.areas), newId)
                   || (dto.responsableId.Some? && !UserExists(old(users.users), dto.responsableId)))) ==>
        r == Err(SaveRefused)
      ensures r.Ok? <==>
        ValidarResponsableUnico(old(areas.areas), dto.responsableId, None).None?
        && !AreaRepository.HasId(old(areas.areas), newId)
        && (dto.responsableId.Some? ==> UserExists(old(users.users), dto.responsableId))
      ensures r.Err? ==>
        areas.areas == old(areas.areas) && users.users == old(users.users) && events.events == old(events.events)
      ensures r.Ok? ==>
        var entity := Area(newId, dto.nombre, GeneratePrefix(dto.nombre), true, dto.responsableId);
        r.value == MapToDto(entity, []) && r.value.stats == AreaStatsDto(0, 0, 0)
        && areas.areas == old(areas.areas) + [entity]
        && users.users == LinkResponsable(old(users.users), dto.responsableId, newId)
        && events.events == old(events.events)
           + SystemEventRepository.AuditEntry(caller, eventId, AreaCreada, dto.nombre, now)
    {
      var conflict := ValidarResponsableUnico(areas.areas, dto.responsableId, None);
      if conflict.Some? {
        return Err(conflict.value);
      }
      if dto.responsableId.Some? && !UserExists(users.users, dto.responsableId) {
        // the foreign key from the area to its manager
        return Err(SaveRefused);
      }
      var entity := Area(newId, dto.nombre, GeneratePrefix(dto.nombre), true, dto.responsableId);
      var added := areas.Add(Some(entity));
      if added.Err? {
        return Err(added.error);
      }
      if dto.responsableId.Some? {
        PlaceResponsable(dto.responsableId, newId);
      }
      RegistrarEvento(caller, eventId, AreaCreada, entity.nombre, now);
      assert Stats([]) == AreaStatsDto(0, 0, 0);
      r := Ok(MapToDto(entity, []));
    }

    /**
     * `UpdateAsync`: the uniqueness guard reads `dto.ResponsableId` before the null guard, so a null body
     * fails with a null dereference. The name, state, prefix and manager are overwritten; a new manager is
     * placed in the area, and the previous one keeps whatever area it had. A manager id that names no
     * user breaks the foreign key from the area to its manager, so the write is refused.
     */
    method Update(areaId: Id, dto: Option<AreaDto>, caller: Option<Id>, eventId: Id, now: Instant)
      returns (r: Outcome<AreaDto>)
      requires Valid() && !SystemEventRepository.HasId(events.events, eventId)
      modifies areas, users, events
      ensures Valid()
      ensures dto.None? ==> r == Err(NullDereference)
      ensures dto.Some? ==> var conflict := ValidarResponsableUnico(old(areas.areas), dto.value.responsableId, Some(areaId));
        conflict.Some? ==> r == Err(conflict.value)
      ensures (dto.Some? && ValidarResponsableUnico(old(areas.areas), dto.value.responsableId, Some(areaId)).None?
               && !AreaRepository.HasId(old(areas.areas), areaId)) ==>
        r == Err(AreaIdNotFound(areaId))
      ensures (dto.Some? && ValidarResponsableUnico(old(areas.areas), dto.value.responsableId, Some(areaId)).None?
               && AreaRepository.HasId(old(areas.areas), areaId)
               && dto.value.responsableId.Some? && !UserExists(old(users.users), dto.value.responsableId)) ==>
        r == Err(SaveRefused)
      ensures r.Ok? <==>
        dto.Some? && ValidarResponsableUnico(old(areas.areas), dto.value.responsableId, Some(areaId)).None?
        && AreaRepository.HasId(old(areas.areas), areaId)
        && (dto.value.responsableId.Some? ==> UserExists(old(users.users), dto.value.responsableId))
      ensures r.Err? ==>
        areas.areas == old(areas.areas) && users.users == old(users.users) && events.events == old(events.events)
      ensures r.Ok? ==> dto.Some? && AreaRepository.GetById(old(areas.areas), areaId).Some?
      ensures r.Ok? ==>
        var existing := AreaRepository.GetById(old(areas.areas), areaId).value;
        var d := dto.value;
        var updated := Area(areaId, d.nombre, d.prefijo, d.activo, d.responsableId);
        r.value == MapToDto(updated, TicketsOf(tickets.tickets, areaId))
        && areas.areas == AreaRepository.Replaced(old(areas.areas), updated)
        && users.users == (if d.responsableId.Some? && d.responsableId != existing.responsableId
                           then LinkResponsable(old(users.users), d.responsableId, areaId)
                           else old(users.users))
        && events.events == old(events.events)
           + SystemEventRepository.AuditEntry(caller, eventId, AreaActualizada, d.nombre, now)
      ensures r.Ok? ==>
        var previous := AreaRepository.GetById(old(areas.areas), areaId).value.responsableId;
        UserExists(old(users.users), previous) && previous != dto.value.responsableId ==>
          users.users[previous.value] == old(users.users)[previous.value]
    {
      if dto.None? {
        return Err(NullDereference);
      }
      var d := dto.value;
      var conflict := ValidarResponsableUnico(areas.areas, d.responsableId, Some(areaId));
      if conflict.Some? {
        return Err(conflict.value);
      }
      var found := AreaRepository.GetById(areas.areas, areaId);
      if found.None? {
        return Err(AreaIdNotFound(areaId));
      }
      if d.responsableId.Some? && !UserExists(users.users, d.responsableId) {
        // the foreign key from the area to its manager
        return Err(SaveRefused);
      }
      var result := Overwrite(found.value, d, caller, eventId, now);
      r := Ok(result);
    }

    /** The success path of `UpdateAsync`, once the guards have passed and `existing` has been loaded. */
    method Overwrite(existing: Area, d: AreaDto, caller: Option<Id>, eventId: Id, now: Instant) returns (r: AreaDto)
      requires Valid() && !SystemEventRepository.HasId(events.events, eventId)
      requires existing in areas.areas
      modifies areas, users, events
      ensures Valid()
      ensures var updated := Area(existing.id, d.nombre, d.prefijo, d.activo, d.responsableId);
        r == MapToDto(updated, TicketsOf(tickets.tickets, existing.id))
        && areas.areas == AreaRepository.Replaced(old(areas.areas), updated)
        && users.users == (if d.responsableId.Some? && d.responsableId != existing.responsableId
                           then LinkResponsable(old(users.users), d.responsableId, existing.id)
                           else old(users.users))
        && events.events == old(events.events)
           + SystemEventRepository.AuditEntry(caller, eventId, AreaActualizada, d.nombre, now)
    {
      var updated := Area(existing.id, d.nombre, d.prefijo, d.activo, d.responsableId);
      assert AreaRepository.HasId(areas.areas, existing.id);
      var _ := areas.Update(Some(updated));
      if d.responsableId.Some? && d.responsableId != existing.responsableId {
        PlaceResponsable(d.responsableId, existing.id);
      }
      RegistrarEvento(caller, eventId, AreaActualizada, updated.nombre, now);
      r := MapToDto(updated, TicketsOf(tickets.tickets, existing.id));
    }

    /** `ActivateAsync`: marks a stored area active and logs the change. */
    method Activate(areaId: Id, caller: Option<Id>, eventId: Id, now: Instant) returns (r: Outcome<()>)
      requires Valid() && !SystemEventRepository.HasId(events.events, eventId)
      modifies areas, events
      ensures Valid()
      ensures AreaRepository.GetById(old(areas.areas), areaId).None? ==>
        r == Err(AreaIdNotFound(areaId)) && areas.areas == old(areas.areas) && events.events == old(events.events)
      ensures var found := AreaRepository.GetById(old(areas.areas), areaId);
        found.Some? ==> (r == Ok(())
        && areas.areas == AreaRepository.Replaced(old(areas.areas), found.value.(activo := true))
        && events.events == old(events.events) + SystemEventRepository.AuditEntry(caller, eventId,
             AreaEstadoCambio, found.value.nombre + " (Activado)", now))
    {
      var found := AreaRepository.GetById(areas.areas, areaId);
      if found.None? {
        return Err(AreaIdNotFound(areaId));
      }
      var existing := found.value.(activo := true);
      RegistrarEvento(caller, eventId, AreaEstadoCambio, existing.nombre + " (Activado)", now);
      var _ := areas.Update(Some(existing));
      r := Ok(());
    }

    /** `DeactivateAsync`: refused while the area has open tickets; otherwise marks it inactive and logs the change. */
    method Deactivate(areaId: Id, caller: Option<Id>, eventId: Id, now: Instant) returns (r: Outcome<()>)
      requires Valid() && !SystemEventRepository.HasId(events.events, eventId)
      modifies areas, events
      ensures Valid()
      ensures ValidarTicketsPendientes(tickets.tickets, areaId).Some? ==> r == Err(PendingTickets)
      ensures (ValidarTicketsPendientes(tickets.tickets, areaId).None?
               && AreaRepository.GetById(old(areas.areas), areaId).None?) ==>
        r == Err(AreaIdNotFound(areaId))
      ensures r.Err? ==> areas.areas == old(areas.areas) && events.events == old(events.events)
      ensures r.Ok? <==>
        ValidarTicketsPendientes(tickets.tickets, areaId).None? && AreaRepository.GetById(old(areas.areas), areaId).Some?
      ensures var found := AreaRepository.GetById(old(areas.areas), areaId);
        r.Ok? ==> (found.Some?
        && areas.areas == AreaRepository.Replaced(old(areas.areas), found.value.(activo := false))
        && events.events == old(events.events) + SystemEventRepository.AuditEntry(caller, eventId,
             AreaEstadoCambio, found.value.nombre + " (Desactivado)", now))
    {
      var pending := ValidarTicketsPendientes(tickets.tickets, areaId);
      if pending.Some? {
        return Err(pending.value);
      }
      var found := AreaRepository.GetById(areas.areas, areaId);
      if found.None? {
        return Err(AreaIdNotFound(areaId));
      }
      var existing := found.value.(activo := false);
      RegistrarEvento(caller, eventId, AreaEstadoCambio, existing.nombre + " (Desactivado)", now);
      var _ := areas.Update(Some(existing));
      r := Ok(());
    }

    /**
     * `DeleteAsync`: refused while the area has open tickets; a missing area is reported; the database
     * refuses the delete while any ticket, user or request type still points at the area, and that
     * failure is reported as the area having a history. `tiposReferencing` says whether a request type
     * points at the area.
     */
    method Delete(areaId: Id, tiposReferencing: bool, caller: Option<Id>, eventId: Id, now: Instant)
      returns (r: Outcome<()>)
      requires Valid() && !SystemEventRepository.HasId(events.events, eventId)
      modifies areas, events
      ensures Valid()
      ensures ValidarTicketsPendientes(tickets.tickets, areaId).Some? ==> r == Err(PendingTickets)
      ensures (ValidarTicketsPendientes(tickets.tickets, areaId).None?
               && AreaRepository.GetById(old(areas.areas), areaId).None?) ==>
        r == Err(AreaNotFound)
      ensures (ValidarTicketsPendientes(tickets.tickets, areaId).None?
               && AreaRepository.GetById(old(areas.areas), areaId).Some?
               && Referenced(tickets.tickets, users.users, areaId, tiposReferencing)) ==>
        r == Err(HasHistory)
      ensures r.Err? ==> areas.areas == old(areas.areas) && events.events == old(events.events)
      ensures r.Ok? <==>
        (ValidarTicketsPendientes(tickets.tickets, areaId).None?
         && AreaRepository.GetById(old(areas.areas), areaId).Some?
         && !Referenced(tickets.tickets, users.users, areaId, tiposReferencing))
      ensures r.Ok? ==>
        areas.areas == Filter(old(areas.areas), (x: Area) => x.id != areaId)
        && events.events == old(events.events) + SystemEventRepository.AuditEntry(caller, eventId,
             AreaEliminada, AreaRepository.GetById(old(areas.areas), areaId).value.nombre, now)
    {
      var pending := ValidarTicketsPendientes(tickets.tickets, areaId);
      if pending.Some? {
        return Err(pending.value);
      }
      var area := AreaRepository.GetById(areas.areas, areaId);
      if area.None? {
        return Err(AreaNotFound);
      }
      var deleted := areas.Delete(area, Referenced(tickets.tickets, users.users, areaId, tiposReferencing));
      if deleted.Err? {
        return Err(HasHistory);
      }
      RegistrarEvento(caller, eventId, AreaEliminada, area.value.nombre, now);
      r := Ok(());
    }

    /**
     * `QuitarResponsableArea`: when both the area and the user exist, logs the removal and clears the
     * area's manager and the user's area; when either is missing, does nothing at all.
     */
    method QuitarResponsableArea(areaId: Id, usuarioId: Id, caller: Option<Id>, eventId: Id, now: Instant)
      requires Valid() && !SystemEventRepository.HasId(events.events, eventId)
      modifies areas, users, events
      ensures Valid()
      ensures (areas.areas, users.users) == Unlinked(old(areas.areas), old(users.users), areaId, usuarioId)
      ensures !(AreaRepository.HasId(old(areas.areas), areaId) && usuarioId in old(users.users)) ==>
        events.events == old(events.events)
      ensures AreaRepository.HasId(old(areas.areas), areaId) && usuarioId in old(users.users) ==>
        events.events == old(events.events) + SystemEventRepository.AuditEntry(caller, eventId, AreaResponsableQuitar,
          "Área: " + AreaRepository.GetById(old(areas.areas), areaId).value.nombre
          + ", Usuario: " + old(users.users)[usuarioId].nombre, now)
    {
      var area := AreaRepository.GetById(areas.areas, areaId);
      var usuario := UserRepository.GetById(users.users, usuarioId);
      if area.None? || usuario.None? {
        return;
      }
      var a := area.value.(responsableId := None);
      var u := usuario.value.(areaId := None);
      RegistrarEvento(caller, eventId, AreaResponsableQuitar,
        "Área: " + area.value.nombre + ", Usuario: " + usuario.value.nombre, now);
      ReplacedClearsManager(areas.areas, area.value);
      var _ := areas.Update(Some(a));
      var _ := users.Update(Some(u));
    }
  }
}
