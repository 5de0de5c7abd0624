/**
 * The entities and enumerations of the help desk. A `Guid` is a natural number with `EmptyId`
 * standing for `Guid.Empty`; a `DateTime` is a count of seconds. Entities are values: a service
 * changes one by writing a new value back into its repository's table.
 */
module Domain {
  import opened Wrappers
  import Numbers

  type Id = nat
  const EmptyId: Id := 0

  /** The text of an id inside a message; here an id prints as its decimal digits. */
  function IdText(id: Id): string {
    Numbers.Digits(id)
  }

  /** A point in time, in seconds. */
  type Instant = int
  const SecondsPerDay: int := 86400

  datatype EstadoTicket = Nueva | EnProceso | Resuelta | Cerrada | Rechazada

  /** The integer value of the enumeration member; members are numbered in declaration order. */
  function EstadoCode(e: EstadoTicket): int {
    match e
    case Nueva => 0
    case EnProceso => 1
    case Resuelta => 2
    case Cerrada => 3
    case Rechazada => 4
  }

  function EstadoName(e: EstadoTicket): string {
    match e
    case Nueva => "Nueva"
    case EnProceso => "EnProceso"
    case Resuelta => "Resuelta"
    case Cerrada => "Cerrada"
    case Rechazada => "Rechazada"
  }

  /** A state that may be null, interpolated into a message: null prints as nothing. */
  function EstadoText(e: Option<EstadoTicket>): string {
    if e.Some? then EstadoName(e.value) else ""
  }

  /** A ticket in `Cerrada` or `Rechazada`; every other state counts as pending. */
  predicate IsFinished(e: EstadoTicket) {
    e == Cerrada || e == Rechazada
  }

  datatype Prioridad = Baja | Media | Alta

  function PrioridadName(p: Prioridad): string {
    match p
    case Baja => "Baja"
    case Media => "Media"
    case Alta => "Alta"
  }

  datatype Rol = Solicitante | Gestor | Admin | SuperAdmin

  predicate IsAdministrator(r: Rol) {
    r == Admin || r == SuperAdmin
  }

  datatype TicketEventType = Creado | CambioEstado | ComentarioADD | Asignado

  function TicketEventTypeName(t: TicketEventType): string {
    match t
    case Creado => "Creado"
    case CambioEstado => "CambioEstado"
    case ComentarioADD => "ComentarioADD"
    case Asignado => "Asignado"
  }

  datatype SystemEventType =
    | Login | Logout
    | UsuarioCreado | UsuarioActualizado | UsuarioEstadoCambio
    | AreaCreada | AreaActualizada | AreaEliminada | AreaResponsableQuitar | AreaEstadoCambio
    | TipoSolicitudCreado | TipoSolicitudEliminado | TipoSolicitudEstadoCambio

  function SystemEventTypeName(t: SystemEventType): string {
    match t
    case Login => "Login"
    case Logout => "Logout"
    case UsuarioCreado => "UsuarioCreado"
    case UsuarioActualizado => "UsuarioActualizado"
    case UsuarioEstadoCambio => "UsuarioEstadoCambio"
    case AreaCreada => "AreaCreada"
    case AreaActualizada => "AreaActualizada"
    case AreaEliminada => "AreaEliminada"
    case AreaResponsableQuitar => "AreaResponsableQuitar"
    case AreaEstadoCambio => "AreaEstadoCambio"
    case TipoSolicitudCreado => "TipoSolicitudCreado"
    case TipoSolicitudEliminado => "TipoSolicitudEliminado"
    case TipoSolicitudEstadoCambio => "TipoSolicitudEstadoCambio"
  }

  datatype Ticket = Ticket(
    id: Id,
    numero: string,
    asunto: string,
    descripcion: string,
    prioridad: Prioridad,
    estado: EstadoTicket,
    areaId: Id,
    tipoSolicitudId: Id,
    solicitanteId: Id,
    gestorAsignadoId: Option<Id>,
    archivoAdjuntoUrl: Option<string>,
    fechaCreacion: Instant,
    fechaActualizacion: Option<Instant>)

  datatype Area = Area(id: Id, nombre: string, prefijo: string, activo: bool, responsableId: Option<Id>)

  datatype Usuario = Usuario(
    id: Id,
    nombre: string,
    email: string,
    rol: Rol,
    areaId: Option<Id>,
    activo: bool,
    fotoPerfilUrl: Option<string>)

  datatype TipoSolicitud = TipoSolicitud(id: Id, nombre: string, areaId: Id, activo: bool)

  datatype Comentario = Comentario(id: Id, ticketId: Id, usuarioId: Id, texto: string, fecha: Instant)

  datatype TicketEvent = TicketEvent(
    id: Id,
    ticketId: Id,
    usuarioId: Id,
    tipoEvento: TicketEventType,
    fecha: Instant,
    estadoAnterior: Option<EstadoTicket>,
    estadoNuevo: Option<EstadoTicket>,
    texto: Option<string>)

  datatype SystemEvent = SystemEvent(id: Id, usuarioId: Id, tipo: SystemEventType, detalles: string, fecha: Instant)

  /** The exception classes the code raises or lets through; the last group comes from the database layer. */
  datatype ExceptionKind =
    | InvalidOperation | ObjectDisposed
    | Argument | ArgumentNull | ArgumentOutOfRange
    | KeyNotFound | UnauthorizedAccess | NotImplemented | NullReference
    | DbUpdate | DbUpdateConcurrency | SqlError

  /** `is InvalidOperationException`, subclasses included. */
  predicate IsInvalidOperation(k: ExceptionKind) {
    k == InvalidOperation || k == ObjectDisposed
  }

  /** `is ArgumentException`, subclasses included. */
  predicate IsArgument(k: ExceptionKind) {
    k == Argument || k == ArgumentNull || k == ArgumentOutOfRange
  }

  /** A thrown exception: its class and its `Message`. */
  datatype Failure = Failure(kind: ExceptionKind, message: string)

  type Outcome<T> = Result<T, Failure>

  /** `ArgumentNullException(nameof(p))`. */
  function NullArgument(p: string): Failure {
    Failure(ArgumentNull, "Value cannot be null. (Parameter '" + p + "')")
  }

  /** `SaveChanges` refused the change (a duplicate key or unique index, or a violated foreign key). */
  const SaveRefused: Failure :=
    Failure(DbUpdate, "An error occurred while saving the entity changes. See the inner exception for details.")

  /** `SaveChanges` found no row to update or delete. */
  const RowMissing: Failure :=
    Failure(DbUpdateConcurrency, "The database operation was expected to affect 1 row(s), but actually affected 0 row(s).")
}
