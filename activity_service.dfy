/**
 * The activity feed: a user's own feed and the dashboard feed. Both merge ticket events and system
 * events into one list of display items, newest first, each with a message phrased for the viewer
 * ("Has creado este ticket." for the viewer's own action, "Ana ha creado este ticket." for someone
 * else's) and a relative date ("Hace 5 min").
 */
module ActivityService {
  import opened Wrappers
  import opened Domain
  import Text
  import Numbers
  import Sorting
  import TicketRepository
  import UserRepository
  import TicketEventRepository
  import SystemEventRepository

  /** One feed item. `fecha` is the relative date shown; `fechaCreacion` the instant the feed is sorted by. */
  datatype ActivityDto = ActivityDto(
    id: Id,
    ticketId: Option<Id>,
    titulo: string,
    mensaje: string,
    fecha: string,
    tipo: string,
    fechaCreacion: Instant)

  /**
   * What an item reads besides its event: the tickets and users its event's navigation properties
   * load (the ticket number, the author's name), the clock, and the local-date format of old items.
   */
  datatype Context = Context(tickets: seq<Ticket>, users: map<Id, Usuario>, now: Instant, dateLabel: Instant -> string)

  /** How many events each query asks for: the defaults of the repository interfaces and the service's own batches. */
  const MyTicketBatch: nat := 10
  const GlobalTicketBatch: nat := 20
  const MySystemBatch: nat := 50
  const GlobalSystemBatch: nat := 30

  const SecondsPerMinute: int := 60
  const SecondsPerHour: int := 3600
  const SecondsPerWeek: int := 7 * SecondsPerDay

  /** `CortarTexto`: a comment quoted in a message, cut to 30 characters plus an ellipsis. */
  function CortarTexto(texto: Option<string>): (r: string)
    ensures Text.IsNullOrEmpty(texto) ==> r == "..."
    ensures !Text.IsNullOrEmpty(texto) && |texto.value| <= 30 ==> r == texto.value
    ensures !Text.IsNullOrEmpty(texto) && |texto.value| > 30 ==>
      |r| == 33 && Text.StartsWith(texto.value, r[..30]) && r[30..] == "..."
    ensures 1 <= |r| <= 33
  {
    if Text.IsNullOrEmpty(texto) then "..."
    else if |texto.value| > 30 then texto.value[..30] + "..."
    else texto.value
  }

  /**
   * `CalcularHaceCuanto`: the age of an event as shown in the feed. Ages under a minute (and events
   * stamped in the future) are "a moment ago"; up to a week the age is a whole number of minutes,
   * hours or days; older events show their date.
   */
  function CalcularHaceCuanto(now: Instant, fecha: Instant, dateLabel: Instant -> string): (r: string)
    ensures now - fecha < SecondsPerMinute ==> r == "Hace un momento"
    ensures now - fecha >= SecondsPerWeek ==> r == dateLabel(fecha)
  {
    var span := now - fecha;
    if span < SecondsPerMinute then "Hace un momento"
    else if span < SecondsPerHour then "Hace " + Numbers.IntToString(span / SecondsPerMinute) + " min"
    else if span < SecondsPerDay then "Hace " + Numbers.IntToString(span / SecondsPerHour) + " h"
    else if span < SecondsPerWeek then "Hace " + Numbers.IntToString(span / SecondsPerDay) + " d"
    else dateLabel(fecha)
  }

  /**
   * Between a minute and a week the label names the number of whole units that have passed, in the
   * largest unit that fits: 1 to 59 minutes, 1 to 23 hours, 1 to 6 days.
   */
  lemma HaceCuantoCountsWholeUnits(now: Instant, fecha: Instant, n: nat, dateLabel: Instant -> string)
    ensures var span := now - fecha;
      SecondsPerMinute <= span < SecondsPerHour && n * SecondsPerMinute <= span < (n + 1) * SecondsPerMinute ==>
        CalcularHaceCuanto(now, fecha, dateLabel) == "Hace " + Numbers.Digits(n) + " min" && 1 <= n < 60
    ensures var span := now - fecha;
      SecondsPerHour <= span < SecondsPerDay && n * SecondsPerHour <= span < (n + 1) * SecondsPerHour ==>
        CalcularHaceCuanto(now, fecha, dateLabel) == "Hace " + Numbers.Digits(n) + " h" && 1 <= n < 24
    ensures var span := now - fecha;
      SecondsPerDay <= span < SecondsPerWeek && n * SecondsPerDay <= span < (n + 1) * SecondsPerDay ==>
        CalcularHaceCuanto(now, fecha, dateLabel) == "Hace " + Numbers.Digits(n) + " d" && 1 <= n < 7
  {
  }

  /** An interpolated `{actor} {rest}`: a message that opens with the actor's name. */
  function ByActor(actor: string, rest: string): string {
    actor + " " + rest
  }

  /** `FormatearMensajeTicket`: the message of a ticket event, in the second person when the viewer is its author. */
  function FormatearMensajeTicket(ev: TicketEvent, fuiYo: bool, actor: string): string {
    match ev.tipoEvento
    case Creado =>
      if fuiYo then "Has creado este ticket." else ByActor(actor, "ha creado este ticket.")
    case CambioEstado =>
      if fuiYo then "Cambiaste el estado a " + EstadoText(ev.estadoNuevo) + "."
      else ByActor(actor, "actualizó el estado a " + EstadoText(ev.estadoNuevo) + ".")
    case ComentarioADD =>
      if fuiYo then "Agregaste un comentario." else ByActor(actor, "comentó: \"" + CortarTexto(ev.texto) + "\"")
    case Asignado =>
      if fuiYo then "Te has autoasignado este ticket." else ByActor(actor, "ha tomado tu ticket.")
  }

  /** The verb of a system message: the second-person form alone, or the actor's name and the third-person form. */
  function Accion(fuiYo: bool, actor: string, verboYo: string, verboEl: string): string {
    if fuiYo then verboYo else ByActor(actor, verboEl)
  }

  /** One interpolated system message: the verb, what it acted on, and the event's details. */
  function Described(fuiYo: bool, actor: string, verboYo: string, verboEl: string, objeto: string, detalles: string): string {
    Accion(fuiYo, actor, verboYo, verboEl) + (" " + objeto + ": " + detalles + ".")
  }

  /** `FormatearMensajeSistema`: the message of a system event, its details quoted after the action. */
  function FormatearMensajeSistema(ev: SystemEvent, fuiYo: bool, actor: string): string {
    match ev.tipo
    case Login => if fuiYo then "Iniciaste sesión." else ByActor(actor, "inició sesión.")
    case Logout => if fuiYo then "Cerraste sesión." else ByActor(actor, "cerró sesión.")
    case UsuarioCreado => Described(fuiYo, actor, "Registraste", "registró", "al usuario", ev.detalles)
    case UsuarioActualizado => Described(fuiYo, actor, "Actualizaste", "actualizó", "el perfil de", ev.detalles)
    case UsuarioEstadoCambio => Described(fuiYo, actor, "Cambiaste", "cambió", "estado de usuario", ev.detalles)
    case AreaCreada => Described(fuiYo, actor, "Creaste", "creó", "el área", ev.detalles)
    case AreaActualizada => Described(fuiYo, actor, "Editaste", "editó", "el área", ev.detalles)
    case AreaEliminada => Described(fuiYo, actor, "Eliminaste", "eliminó", "el área", ev.detalles)
    case AreaEstadoCambio => Described(fuiYo, actor, "Cambiaste", "cambió", "estado de área", ev.detalles)
    case AreaResponsableQuitar => Described(fuiYo, actor, "Quitaste", "quitó", "el responsable del área", ev.detalles)
    case TipoSolicitudCreado => Described(fuiYo, actor, "Creaste", "creó", "el tipo", ev.detalles)
    case TipoSolicitudEliminado => Described(fuiYo, actor, "Eliminaste", "eliminó", "el tipo", ev.detalles)
    case TipoSolicitudEstadoCambio => Described(fuiYo, actor, "Cambiaste", "cambió", "estado del tipo", ev.detalles)
  }

  lemma StartsWithConcat(a: string, b: string)
    ensures Text.StartsWith(a + b, a)
  {
    assert (a + b)[..|a|] == a;
  }

  lemma StartsWithExtend(s: string, p: string, y: string)
    requires Text.StartsWith(s, p)
    ensures Text.StartsWith(s + y, p)
  {
    assert (s + y)[..|p|] == s[..|p|];
  }

  lemma ByActorOpensWithActor(actor: string, rest: string)
    ensures Text.StartsWith(ByActor(actor, rest), actor + " ")
  {
    StartsWithConcat(actor + " ", rest);
  }

  /** Someone else's interpolated system message opens with the actor's name. */
  lemma DescribedOpensWithActor(actor: string, verboYo: string, verboEl: string, objeto: string, detalles: string)
    ensures Text.StartsWith(Described(false, actor, verboYo, verboEl, objeto, detalles), actor + " ")
  {
    ByActorOpensWithActor(actor, verboEl);
    StartsWithExtend(ByActor(actor, verboEl), actor + " ", " " + objeto + ": " + detalles + ".");
  }

  /**
   * Someone else's ticket event opens with its actor's name; the viewer's own is phrased in the
   * second person and does not depend on the actor at all.
   */
  lemma TicketMessagePerson(ev: TicketEvent, actor: string, otherActor: string)
    ensures Text.StartsWith(FormatearMensajeTicket(ev, false, actor), actor + " ")
    ensures FormatearMensajeTicket(ev, true, actor) == FormatearMensajeTicket(ev, true, otherActor)
  {
    match ev.tipoEvento
    case Creado => ByActorOpensWithActor(actor, "ha creado este ticket.");
    case CambioEstado => ByActorOpensWithActor(actor, "actualizó el estado a " + EstadoText(ev.estadoNuevo) + ".");
    case ComentarioADD => ByActorOpensWithActor(actor, "comentó: \"" + CortarTexto(ev.texto) + "\"");
    case Asignado => ByActorOpensWithActor(actor, "ha tomado tu ticket.");
  }

  /** The same two facts for system events: every type names someone else in the third person. */
  lemma SystemMessagePerson(ev: SystemEvent, actor: string, otherActor: string)
    ensures Text.StartsWith(FormatearMensajeSistema(ev, false, actor), actor + " ")
    ensures FormatearMensajeSistema(ev, true, actor) == FormatearMensajeSistema(ev, true, otherActor)
  {
    var d := ev.detalles;
    match ev.tipo
    case Login => ByActorOpensWithActor(actor, "inició sesión.");
    case Logout => ByActorOpensWithActor(actor, "cerró sesión.");
    case UsuarioCreado => DescribedOpensWithActor(actor, "Registraste", "registró", "al usuario", d);
    case UsuarioActualizado => DescribedOpensWithActor(actor, "Actualizaste", "actualizó", "el perfil de", d);
    case UsuarioEstadoCambio => DescribedOpensWithActor(actor, "Cambiaste", "cambió", "estado de usuario", d);
    case AreaCreada => DescribedOpensWithActor(actor, "Creaste", "creó", "el área", d);
    case AreaActualizada => DescribedOpensWithActor(actor, "Editaste", "editó", "el área", d);
    case AreaEliminada => DescribedOpensWithActor(actor, "Eliminaste", "eliminó", "el área", d);
    case AreaEstadoCambio => DescribedOpensWithActor(actor, "Cambiaste", "cambió", "estado de área", d);
    case AreaResponsableQuitar => DescribedOpensWithActor(actor, "Quitaste", "quitó", "el responsable del área", d);
    case TipoSolicitudCreado => DescribedOpensWithActor(actor, "Creaste", "creó", "el tipo", d);
    case TipoSolicitudEliminado => DescribedOpensWithActor(actor, "Eliminaste", "eliminó", "el tipo", d);
    case TipoSolicitudEstadoCambio => DescribedOpensWithActor(actor, "Cambiaste", "cambió", "estado del tipo", d);
  }

  /** The actor named in a message: `"Tú"` for the viewer's own events, otherwise the author or the fallback. */
  function Actor(users: map<Id, Usuario>, usuarioId: Id, viewer: Id, fallback: string): string {
    if usuarioId == viewer then "Tú" else UserRepository.NameOr(users, usuarioId, fallback)
  }

  /**
   * `CrearDtoTicket`: a ticket event as a feed item. It names the ticket by its number, or says it
   * was deleted when the event's ticket is not there to load.
   */
  function CrearDtoTicket(ev: TicketEvent, fuiYo: bool, actor: string, ctx: Context): (r: ActivityDto)
    ensures r.id == ev.id && r.ticketId == Some(ev.ticketId) && r.fechaCreacion == ev.fecha
    ensures Text.StartsWith(r.titulo, "Ticket ")
    ensures !TicketRepository.HasId(ctx.tickets, ev.ticketId) ==> r.titulo == "Ticket Eliminado"
    ensures TicketRepository.HasId(ctx.tickets, ev.ticketId) ==>
      exists t :: t in ctx.tickets && t.id == ev.ticketId && r.titulo == "Ticket " + t.numero
    ensures r.mensaje == FormatearMensajeTicket(ev, fuiYo, actor)
    ensures r.fecha == CalcularHaceCuanto(ctx.now, ev.fecha, ctx.dateLabel)
    ensures r.tipo == TicketEventTypeName(ev.tipoEvento)
  {
    var ticket := TicketRepository.GetById(ctx.tickets, ev.ticketId);
    var titulo := if ticket.Some? then "Ticket " + ticket.value.numero else "Ticket Eliminado";
    StartsWithConcat("Ticket ", if ticket.Some? then ticket.value.numero else "Eliminado");
    ActivityDto(
      ev.id, Some(ev.ticketId), titulo, FormatearMensajeTicket(ev, fuiYo, actor),
      CalcularHaceCuanto(ctx.now, ev.fecha, ctx.dateLabel), TicketEventTypeName(ev.tipoEvento), ev.fecha)
  }

  /** `CrearDtoSistema`: a system event as a feed item, with no ticket. */
  function CrearDtoSistema(ev: SystemEvent, fuiYo: bool, actor: string, ctx: Context): (r: ActivityDto)
    ensures r.id == ev.id && r.ticketId.None? && r.titulo == "Sistema" && r.fechaCreacion == ev.fecha
    ensures r.mensaje == FormatearMensajeSistema(ev, fuiYo, actor)
    ensures r.fecha == CalcularHaceCuanto(ctx.now, ev.fecha, ctx.dateLabel)
    ensures r.tipo == SystemEventTypeName(ev.tipo)
  {
    ActivityDto(
      ev.id, None, "Sistema", FormatearMensajeSistema(ev, fuiYo, actor),
      CalcularHaceCuanto(ctx.now, ev.fecha, ctx.dateLabel), SystemEventTypeName(ev.tipo), ev.fecha)
  }

  /** A ticket event's item as `viewer` sees it: second person exactly when the viewer wrote the event. */
  function TicketItem(ev: TicketEvent, viewer: Id, fallback: string, ctx: Context): ActivityDto {
    CrearDtoTicket(ev, ev.usuarioId == viewer, Actor(ctx.users, ev.usuarioId, viewer, fallback), ctx)
  }

  function TicketItems(tes: seq<TicketEvent>, viewer: Id, fallback: string, ctx: Context): (r: seq<ActivityDto>)
    ensures |r| == |tes|
    ensures forall k :: 0 <= k < |tes| ==> r[k] == TicketItem(tes[k], viewer, fallback, ctx)
  {
    seq(|tes|, k requires 0 <= k < |tes| => TicketItem(tes[k], viewer, fallback, ctx))
  }

  /** A system event's item on the dashboard, which speaks to `viewer` in the second person for their own events. */
  function SystemItem(ev: SystemEvent, viewer: Id, ctx: Context): ActivityDto {
    CrearDtoSistema(ev, ev.usuarioId == viewer, Actor(ctx.users, ev.usuarioId, viewer, "Sistema"), ctx)
  }

  function SystemItems(ses: seq<SystemEvent>, viewer: Id, ctx: Context): (r: seq<ActivityDto>)
    ensures |r| == |ses|
    ensures forall k :: 0 <= k < |ses| ==> r[k] == SystemItem(ses[k], viewer, ctx)
  {
    seq(|ses|, k requires 0 <= k < |ses| => SystemItem(ses[k], viewer, ctx))
  }

  /** A system event's item in the personal feed, always in the second person. */
  function MySystemItem(ev: SystemEvent, ctx: Context): ActivityDto {
    CrearDtoSistema(ev, true, "Tú", ctx)
  }

  function MySystemItems(ses: seq<SystemEvent>, ctx: Context): (r: seq<ActivityDto>)
    ensures |r| == |ses|
    ensures forall k :: 0 <= k < |ses| ==> r[k] == MySystemItem(ses[k], ctx)
  {
    seq(|ses|, k requires 0 <= k < |ses| => MySystemItem(ses[k], ctx))
  }

  /** `OrderByDescending(x => x.Date)`: newer items first, items of the same instant in their merge order. */
  predicate NewerFirst(a: ActivityDto, b: ActivityDto) {
    a.fechaCreacion >= b.fechaCreacion
  }

  lemma NewerFirstIsTotalPreorder()
    ensures Sorting.TotalPreorder(NewerFirst)
  {
  }

  /** The personal feed's system events: those of the newest 50 that the user wrote. */
  function MySystemEvents(userId: Id, ses: seq<SystemEvent>): (r: seq<SystemEvent>)
    ensures forall e :: e in r <==> e in SystemEventRepository.Recent(ses, MySystemBatch) && e.usuarioId == userId
    ensures |r| <= MySystemBatch
  {
    Filter(SystemEventRepository.Recent(ses, MySystemBatch), (e: SystemEvent) => e.usuarioId == userId)
  }

  /** The dashboard's user filter: every event when there is no target, otherwise the target's own. */
  predicate ForTarget(targetUserId: Option<Id>, e: SystemEvent) {
    targetUserId.None? || e.usuarioId == targetUserId.value
  }

  function TargetFilter(targetUserId: Option<Id>): SystemEvent -> bool {
    (e: SystemEvent) => ForTarget(targetUserId, e)
  }

  /**
   * The dashboard's system events: none when the feed is limited to an area; otherwise those of the
   * newest 30 that the target user wrote, or all 30 when there is no target.
   */
  function GlobalSystemEvents(areaId: Option<Id>, targetUserId: Option<Id>, ses: seq<SystemEvent>): (r: seq<SystemEvent>)
    ensures areaId.Some? ==> r == []
    ensures areaId.None? ==> forall e :: e in r <==>
      e in SystemEventRepository.Recent(ses, GlobalSystemBatch) && ForTarget(targetUserId, e)
    ensures areaId.None? && targetUserId.None? ==> r == SystemEventRepository.Recent(ses, GlobalSystemBatch)
    ensures |r| <= GlobalSystemBatch
  {
    var recent := SystemEventRepository.Recent(ses, GlobalSystemBatch);
    if areaId.Some? then []
    else
      FilterAll(recent, TargetFilter(targetUserId));
      Filter(recent, TargetFilter(targetUserId))
  }

  /** The items of a feed, merged in the order the service adds them, sorted newest first. */
  function Feed(items: seq<ActivityDto>): (r: seq<ActivityDto>)
    ensures Sorting.SortedBy(r, NewerFirst)
    ensures multiset(r) == multiset(items)
    ensures forall x :: Sorting.Ties(r, NewerFirst, x) == Sorting.Ties(items, NewerFirst, x)
  {
    NewerFirstIsTotalPreorder();
    Sorting.SortBySorted(items, NewerFirst);
    forall x ensures Sorting.Ties(Sorting.SortBy(items, NewerFirst), NewerFirst, x) == Sorting.Ties(items, NewerFirst, x) {
      Sorting.SortByStable(items, NewerFirst, x);
    }
    Sorting.SortBy(items, NewerFirst)
  }

  /** `GetMyActivityAsync`: the user's ticket events, then their own recent system events, newest first. */
  function MyActivity(userId: Id, tes: seq<TicketEvent>, ses: seq<SystemEvent>, ctx: Context): (r: seq<ActivityDto>)
    ensures Sorting.SortedBy(r, NewerFirst)
    ensures multiset(r) == multiset(TicketItems(tes, userId, "Un gestor", ctx)) + multiset(MySystemItems(MySystemEvents(userId, ses), ctx))
    ensures |r| == |tes| + |MySystemEvents(userId, ses)|
  {
    Feed(TicketItems(tes, userId, "Un gestor", ctx) + MySystemItems(MySystemEvents(userId, ses), ctx))
  }

  /**
   * `GetGlobalActivityAsync`: the filtered ticket events, then, unless the feed is limited to an
   * area, the recent system events (of the target user when there is one), newest first.
   */
  function GlobalActivity(currentUserId: Id, areaId: Option<Id>, targetUserId: Option<Id>,
                          tes: seq<TicketEvent>, ses: seq<SystemEvent>, ctx: Context): (r: seq<ActivityDto>)
    ensures Sorting.SortedBy(r, NewerFirst)
    ensures multiset(r) == multiset(TicketItems(tes, currentUserId, "Usuario", ctx))
      + multiset(SystemItems(GlobalSystemEvents(areaId, targetUserId, ses), currentUserId, ctx))
    ensures |r| == |tes| + |GlobalSystemEvents(areaId, targetUserId, ses)|
  {
    Feed(TicketItems(tes, currentUserId, "Usuario", ctx) + SystemItems(GlobalSystemEvents(areaId, targetUserId, ses), currentUserId, ctx))
  }

  /** A personal-feed system item is what the dashboard would show the item's own author: the user wrote every one of them. */
  lemma MySystemItemsAreOwn(userId: Id, ses: seq<SystemEvent>, ctx: Context)
    ensures forall e :: e in MySystemEvents(userId, ses) ==> MySystemItem(e, ctx) == SystemItem(e, userId, ctx)
  {
  }

  /**
   * The viewer's own event is told in the second person, whatever the author's stored name; anyone
   * else's opens with that author's name, or with the feed's fallback when the user is not there.
   */
  lemma ItemPerson(te: TicketEvent, se: SystemEvent, viewer: Id, fallback: string, ctx: Context)
    ensures te.usuarioId == viewer ==>
      TicketItem(te, viewer, fallback, ctx).mensaje == FormatearMensajeTicket(te, true, fallback)
    ensures te.usuarioId != viewer ==>
      Text.StartsWith(TicketItem(te, viewer, fallback, ctx).mensaje, UserRepository.NameOr(ctx.users, te.usuarioId, fallback) + " ")
    ensures se.usuarioId == viewer ==> SystemItem(se, viewer, ctx).mensaje == MySystemItem(se, ctx).mensaje
    ensures se.usuarioId != viewer ==>
      Text.StartsWith(SystemItem(se, viewer, ctx).mensaje, UserRepository.NameOr(ctx.users, se.usuarioId, "Sistema") + " ")
  {
    TicketMessagePerson(te, Actor(ctx.users, te.usuarioId, viewer, fallback), fallback);
    SystemMessagePerson(se, Actor(ctx.users, se.usuarioId, viewer, "Sistema"), "Tú");
  }

  /** Every item of a merged list comes from one of its two parts. */
  lemma InFeed(a: ActivityDto, xs: seq<ActivityDto>, ys: seq<ActivityDto>)
    requires a in Feed(xs + ys)
    ensures a in xs || a in ys
  {
    assert a in multiset(Feed(xs + ys));
  }

  /**
   * Every item of the personal feed stems from an event: a ticket item from one of the user's ticket
   * events, an item without a ticket from one of the user's own recent system events.
   */
  lemma MyActivityOrigin(userId: Id, tes: seq<TicketEvent>, ses: seq<SystemEvent>, ctx: Context, a: ActivityDto)
    requires a in MyActivity(userId, tes, ses, ctx)
    ensures a.ticketId.Some? ==> exists k :: 0 <= k < |tes| && a == TicketItem(tes[k], userId, "Un gestor", ctx)
    ensures a.ticketId.None? ==>
      exists e :: (e in SystemEventRepository.Recent(ses, MySystemBatch) && e.usuarioId == userId && a == MySystemItem(e, ctx))
  {
    var own := MySystemEvents(userId, ses);
    var items := MySystemItems(own, ctx);
    InFeed(a, TicketItems(tes, userId, "Un gestor", ctx), items);
    if a in items {
      var k :| 0 <= k < |items| && items[k] == a;
      assert own[k] in own;
    }
  }

  /**
   * A dashboard limited to an area shows ticket items only; without the limit its items without a
   * ticket are the recent system events, of the target user when there is one.
   */
  lemma GlobalActivityOrigin(currentUserId: Id, areaId: Option<Id>, targetUserId: Option<Id>,
                             tes: seq<TicketEvent>, ses: seq<SystemEvent>, ctx: Context, a: ActivityDto)
    requires a in GlobalActivity(currentUserId, areaId, targetUserId, tes, ses, ctx)
    ensures a.ticketId.Some? ==> exists k :: 0 <= k < |tes| && a == TicketItem(tes[k], currentUserId, "Usuario", ctx)
    ensures areaId.Some? ==> a.ticketId.Some?
    ensures a.ticketId.None? ==>
      exists e :: (e in SystemEventRepository.Recent(ses, GlobalSystemBatch) && ForTarget(targetUserId, e)
        && a == SystemItem(e, currentUserId, ctx))
  {
    var picked := GlobalSystemEvents(areaId, targetUserId, ses);
    var items := SystemItems(picked, currentUserId, ctx);
    InFeed(a, TicketItems(tes, currentUserId, "Usuario", ctx), items);
    if a in items {
      var k :| 0 <= k < |items| && items[k] == a;
      assert picked[k] in picked;
    }
  }

  /** Items of the same instant keep the order they were added in: ticket items ahead of system items. */
  lemma SameInstantTicketsFirst(ticketItems: seq<ActivityDto>, systemItems: seq<ActivityDto>, x: ActivityDto)
    ensures Sorting.Ties(Feed(ticketItems + systemItems), NewerFirst, x)
      == Sorting.Ties(ticketItems, NewerFirst, x) + Sorting.Ties(systemItems, NewerFirst, x)
  {
    Sorting.TiesConcat(ticketItems, systemItems, NewerFirst, x);
  }

  /** Filtering one more element of `xs` adds it at the end exactly when it passes. */
  lemma FilterSnoc<T(!new)>(xs: seq<T>, i: int, p: T -> bool)
    requires 0 <= i < |xs|
    ensures Filter(xs[..i + 1], p) == Filter(xs[..i], p) + (if p(xs[i]) then [xs[i]] else [])
  {
    assert xs[..i + 1] == xs[..i] + [xs[i]];
    FilterConcat(xs[..i], [xs[i]], p);
    assert Filter([xs[i]], p) == (if p(xs[i]) then [xs[i]] else []) + Filter([xs[i]][1..], p);
  }

  lemma SystemItemsSnoc(kept: seq<SystemEvent>, ev: SystemEvent, viewer: Id, ctx: Context)
    ensures SystemItems(kept + [ev], viewer, ctx) == SystemItems(kept, viewer, ctx) + [SystemItem(ev, viewer, ctx)]
  {
    assert (kept + [ev])[|kept|] == ev;
  }

  class Service {
    const tickets: TicketRepository.Repository
    const users: UserRepository.Repository
    const ticketEvents: TicketEventRepository.Repository
    const systemEvents: SystemEventRepository.Repository

    constructor (tickets: TicketRepository.Repository, users: UserRepository.Repository,
                 ticketEvents: TicketEventRepository.Repository, systemEvents: SystemEventRepository.Repository)
      ensures this.tickets == tickets && this.users == users
      ensures this.ticketEvents == ticketEvents && this.systemEvents == systemEvents
    {
      this.tickets := tickets;
      this.users := users;
      this.ticketEvents := ticketEvents;
      this.systemEvents := systemEvents;
    }

    /** The ticket events' items, in the order the query returned them. */
    method AddTicketItems(tes: seq<TicketEvent>, viewer: Id, fallback: string, ctx: Context) returns (r: seq<ActivityDto>)
      ensures r == TicketItems(tes, viewer, fallback, ctx)
    {
      r := [];
      var i := 0;
      while i < |tes|
        invariant 0 <= i <= |tes| && |r| == i
        invariant forall k :: 0 <= k < i ==> r[k] == TicketItem(tes[k], viewer, fallback, ctx)
      {
        var ev := tes[i];
        var fuiYo := ev.usuarioId == viewer;
        var actor := if fuiYo then "Tú" else UserRepository.NameOr(ctx.users, ev.usuarioId, fallback);
        r := r + [CrearDtoTicket(ev, fuiYo, actor, ctx)];
        i := i + 1;
      }
    }

    /** The items of the user's own system events, all in the second person. */
    method AddOwnSystemItems(mine: seq<SystemEvent>, ctx: Context) returns (r: seq<ActivityDto>)
      ensures r == MySystemItems(mine, ctx)
    {
      r := [];
      var i := 0;
      while i < |mine|
        invariant 0 <= i <= |mine| && |r| == i
        invariant forall k :: 0 <= k < i ==> r[k] == MySystemItem(mine[k], ctx)
      {
        r := r + [CrearDtoSistema(mine[i], true, "Tú", ctx)];
        i := i + 1;
      }
    }

    /**
     * `GetMyActivityAsync(userId)`. `recent` is what `GetRecentByUserIdAsync(userId)` returned, at
     * most ten stored ticket events; `now` and `dateLabel` are the clock and the local-date format.
     */
    method GetMyActivity(userId: Id, recent: seq<TicketEvent>, now: Instant, dateLabel: Instant -> string)
      returns (r: seq<ActivityDto>)
      requires TicketEventRepository.AdmissibleRecent(ticketEvents.events, MyTicketBatch, recent)
      ensures r == MyActivity(userId, recent, systemEvents.events, Context(tickets.tickets, users.users, now, dateLabel))
      ensures |r| <= MyTicketBatch + MySystemBatch
    {
      var ctx := Context(tickets.tickets, users.users, now, dateLabel);
      var combined := AddTicketItems(recent, userId, "Un gestor", ctx);
      var systemRecent := SystemEventRepository.GetRecent(systemEvents.events, MySystemBatch);
      var mine := Filter(systemRecent.value, (e: SystemEvent) => e.usuarioId == userId);
      var systemItems := AddOwnSystemItems(mine, ctx);
      combined := combined + systemItems;
      NewerFirstIsTotalPreorder();
      r := Sorting.SortBy(combined, NewerFirst);
    }

    /** The items of the system events the target filter keeps, skipping the others. */
    method AddSystemItems(all: seq<SystemEvent>, targetUserId: Option<Id>, viewer: Id, ctx: Context)
      returns (r: seq<ActivityDto>)
      ensures r == SystemItems(Filter(all, TargetFilter(targetUserId)), viewer, ctx)
    {
      r := [];
      ghost var keep := TargetFilter(targetUserId);
      ghost var kept: seq<SystemEvent> := [];
      var i := 0;
      while i < |all|
        invariant 0 <= i <= |all|
        invariant kept == Filter(all[..i], keep)
        invariant r == SystemItems(kept, viewer, ctx)
      {
        var ev := all[i];
        var skip := targetUserId.Some? && ev.usuarioId != targetUserId.value;
        FilterSnoc(all, i, keep);
        assert keep(ev) == !skip;
        if !skip {
          var fuiYo := ev.usuarioId == viewer;
          var actor := if fuiYo then "Tú" else UserRepository.NameOr(ctx.users, ev.usuarioId, "Sistema");
          SystemItemsSnoc(kept, ev, viewer, ctx);
          r := r + [CrearDtoSistema(ev, fuiYo, actor, ctx)];
          kept := kept + [ev];
        }
        i := i + 1;
      }
      assert all[..i] == all;
      assert r == SystemItems(kept, viewer, ctx);
    }

    /**
     * `GetGlobalActivityAsync(currentUserId, areaId, targetUserId)`. `recent` is what
     * `GetGlobalRecentAsync(areaId, targetUserId)` returned, at most twenty stored ticket events.
     */
    method GetGlobalActivity(currentUserId: Id, areaId: Option<Id>, targetUserId: Option<Id>, recent: seq<TicketEvent>,
                             now: Instant, dateLabel: Instant -> string)
      returns (r: seq<ActivityDto>)
      requires TicketEventRepository.AdmissibleRecent(ticketEvents.events, GlobalTicketBatch, recent)
      ensures r == GlobalActivity(currentUserId, areaId, targetUserId, recent, systemEvents.events,
                                  Context(tickets.tickets, users.users, now, dateLabel))
      ensures |r| <= GlobalTicketBatch + GlobalSystemBatch
      ensures areaId.Some? ==> |r| == |recent|
    {
      var ctx := Context(tickets.tickets, users.users, now, dateLabel);
      var combined := AddTicketItems(recent, currentUserId, "Usuario", ctx);
      if areaId.None? {
        var systemRecent := SystemEventRepository.GetRecent(systemEvents.events, GlobalSystemBatch);
        var systemItems := AddSystemItems(systemRecent.value, targetUserId, currentUserId, ctx);
        combined := combined + systemItems;
      } else {
        assert combined + SystemItems([], currentUserId, ctx) == combined;
      }
      NewerFirstIsTotalPreorder();
      r := Sorting.SortBy(combined, NewerFirst);
    }
  }
}
