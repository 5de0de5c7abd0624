# MiniTicker in Dafny

MiniTicker is a help-desk service. Requesters (`Solicitante`) open tickets against an area and a
request type (`TipoSolicitud`). Managers (`Gestor`) take tickets and move them through the states
`Nueva`, `EnProceso`, `Resuelta`, `Cerrada` and `Rechazada`, and administrators (`Admin`,
`SuperAdmin`) maintain the catalogue of areas and request types. Each area may have one responsible
manager, and that link is kept on both sides (`Area.ResponsableId` and `Usuario.AreaId`). Every
catalogue change is written to a system audit log. Ticket events and comments make up each ticket's
history, and the activity feeds merge ticket events with system events.

This project models the service layer's business rules and the repository queries they depend on.
The database is a set of in-memory tables:

- tickets and areas are sequences in storage order;
- users and request types are maps keyed by id;
- comments, ticket events and system events are append-only sequences.

Each repository is a class that holds its table, and each service is a class that holds
references to the repositories it uses. Methods name the tables they change in `modifies` and
state the whole new state. The queries, the sorting, the message templates and the access
scoping are pure functions. The methods' loops are proved against those functions, and the
lemmas prove the promised properties about the functions.

Conventions used throughout:

- Ids (`Guid`) are natural numbers, with `Guid.Empty` as 0.
- Instants (`DateTime`) are whole seconds, and the day boundary is a multiple of 86400.
- The current time, fresh ids, the caller's id claim and role, the URL returned by the file
  store, and the date formatter are parameters.
- Exceptions are `Err(Failure(kind, message))` values, so every thrown path is an explicit result.
- LINQ `Where`, `OrderBy`/`OrderByDescending`, `Skip`/`Take`, `FirstOrDefault`, `Count` and
  `GroupBy` are written as functions over sequences. The sort is a stable insertion sort, proved
  sorted, a permutation, and order-preserving among equal keys.
- Integer parsing and formatting follow .NET: `int.TryParse` with sign, white space and the 32-bit
  range, `ToString("0000")` padding, and unchecked 32-bit wrap-around of `+ 1` and of the paging offset.

Modules, one per file, follow the program's layers:

- `Wrappers`, `Text`, `Numbers` and `Sorting` hold the library behaviour the code relies on.
- `Domain` holds the entities and enums.
- One module per repository.
- `TicketService`, `AreaService`, `UserService`, `TipoSolicitudService` and `ActivityService`.
- `TicketController`: role scoping, comment validation and the ticket history.
- `ErrorHandlerMiddleware`: exceptions to HTTP status codes.

Three behaviours of the code as written are stated as lemmas:

- `TicketService.NumberReusedAfterDelete`: ticket numbers are derived from the row count, so after
  a delete the next number collides with a stored one, and the unique index refuses the insert.
- `TicketRepository.NextSequenceRepeatsAfterWidthChange`: the unused per-year allocator compares
  numbers as strings, so after `9999` it returns a number already in use. A negative suffix makes
  it return a value below one (`TicketRepository.NextSequenceNegativeSuffix`).
- `AreaService.Service.Update`: the update reads the form's `ResponsableId` before it checks the
  form for null, so a null form fails with a null dereference (a 500), not with a
  validation error.

## Model

| member | source | states |
|---|---|---|
| AreaRepository.Repository.Add | MiniTicker.Infrastructure.Persistence/Repositories/AreaRepository.cs:22-28 | A null area is refused with ArgumentNullException; a duplicate id is refused by the store; otherwise the area is appended and nothing else changes |
| AreaRepository.Repository.Update | MiniTicker.Infrastructure.Persistence/Repositories/AreaRepository.cs:30-36 | Null is refused; an unknown id fails as a concurrency error; otherwise exactly the row with that id is overwritten |
| AreaRepository.Repository.Delete | MiniTicker.Infrastructure.Persistence/Repositories/AreaRepository.cs:38-44 | Null is refused; an unknown id fails; a row still referenced by other tables is refused by the store; otherwise exactly that row is removed |
| AreaRepository.GetById | MiniTicker.Infrastructure.Persistence/Repositories/AreaRepository.cs:46-53 | Returns a stored area with that id, and returns none exactly when no area has that id |
| AreaRepository.GetAll | MiniTicker.Infrastructure.Persistence/Repositories/AreaRepository.cs:55-78 | `true` lists the inactive areas and `false` the active ones, each with its multiplicity, sorted by name ascending |
| AreaRepository.IncluirInactivosExcludesActive | MiniTicker.Infrastructure.Persistence/Repositories/AreaRepository.cs:64-71 | For a stored area: it is in the `true` listing iff inactive, in the `false` listing iff active, and never in both |
| AreaRepository.ListsPartitionTable | MiniTicker.Infrastructure.Persistence/Repositories/AreaRepository.cs:64-71 | The two listings together are a permutation of the whole table |
| AreaRepository.NameOrderIsTotalPreorder | MiniTicker.Infrastructure.Persistence/Repositories/AreaRepository.cs:74 | The ordinal name order used for sorting is total and transitive |
| ComentarioRepository.Repository.Add | MiniTicker.Infrastructure.Persistence/Repositories/ComentarioRepository.cs:22-30 | Null is refused with no change; a duplicate id is refused; otherwise the comment is appended and returned unchanged |
| ComentarioRepository.GetByTicketId | MiniTicker.Infrastructure.Persistence/Repositories/ComentarioRepository.cs:32-52 | Both comment queries return exactly the ticket's comments, each with its multiplicity, oldest first |
| ComentarioRepository.AddedCommentListed | MiniTicker.Infrastructure.Persistence/Repositories/ComentarioRepository.cs:22-41 | A comment that was just added shows up in its own ticket's listing and leaves every other ticket's listing unchanged |
| ComentarioRepository.OlderFirstIsTotalPreorder | MiniTicker.Infrastructure.Persistence/Repositories/ComentarioRepository.cs:38 | Ascending date order is a total preorder |
| SystemEventRepository.Repository.Add | MiniTicker.Infrastructure.Persistence/Repositories/SystemEventRepository.cs:15-19 | The event is appended and earlier events are unchanged; a duplicate id is refused with no change |
| SystemEventRepository.Recent | MiniTicker.Infrastructure.Persistence/Repositories/SystemEventRepository.cs:21-29 | The newest `n` events, or all of them when there are fewer: newest first, a sub-multiset of the log, and of length min(n, size) |
| SystemEventRepository.GetRecent | MiniTicker.Infrastructure.Persistence/Repositories/SystemEventRepository.cs:21-29 | A negative count is an error, and exactly then; otherwise it returns the newest `count` events |
| SystemEventRepository.RecentAreNewest | MiniTicker.Infrastructure.Persistence/Repositories/SystemEventRepository.cs:26-27 | No event left out of the result is newer than any event returned |
| SystemEventRepository.DefaultRecentSize | MiniTicker.Infrastructure.Persistence/Repositories/SystemEventRepository.cs:21 | With the default count of 20 the call succeeds with at most 20 events, and exactly 20 when the log holds that many |
| SystemEventRepository.NewerFirstIsTotalPreorder | MiniTicker.Infrastructure.Persistence/Repositories/SystemEventRepository.cs:26 | Descending date order is a total preorder |
| SystemEventRepository.AuditEntry | MiniTicker.Application/Services/AreaService.cs:263-282 | The audit write: nothing when the caller's id claim is missing, otherwise one event with the caller, type, details and time |
| SystemEventRepository.AuditEntryKeepsUnique | MiniTicker.Application/Services/AreaService.cs:274-280 | Appending an audit entry with a fresh id keeps event ids unique |
| TicketEventRepository.Repository.Add | MiniTicker.Infrastructure.Persistence/Repositories/TicketEventRepository.cs:17-21 | The event is appended and earlier events are unchanged; a duplicate id is refused |
| TicketEventRepository.GetByTicketIdOrderedAsc | MiniTicker.Infrastructure.Persistence/Repositories/TicketEventRepository.cs:23-31 | Exactly the ticket's events, each with its multiplicity, oldest first |
| TicketEventRepository.AppendExtendsHistory | MiniTicker.Infrastructure.Persistence/Repositories/TicketEventRepository.cs:17-31 | After an append, an event is in a ticket's history iff it was there before or it is the new event and belongs to that ticket |
| TicketEventRepository.OlderFirstIsTotalPreorder | MiniTicker.Infrastructure.Persistence/Repositories/TicketEventRepository.cs:28 | Ascending date order is a total preorder |
| UserRepository.Repository.Add | MiniTicker.Infrastructure.Persistence/Repositories/UserRepository.cs:21-27 | A null user is refused. A duplicate id, or an email already held by another user (the unique index on `Email`), is refused by the store with no change. Otherwise the user is stored under its id |
| UserRepository.Repository.Update | MiniTicker.Infrastructure.Persistence/Repositories/UserRepository.cs:29-35 | Null is refused; an unknown id fails as a concurrency error; an email held by another user is refused. Otherwise exactly that user's row is overwritten, which always happens when the row keeps its own email |
| UserRepository.GetById | MiniTicker.Infrastructure.Persistence/Repositories/UserRepository.cs:37-44 | Returns the stored user with that id, and returns none exactly when the id is unknown |
| TipoSolicitudRepository.Repository.Add | MiniTicker.Infrastructure.Persistence/Repositories/TipoSolicitudRepository.cs:21-27 | Null is refused; a duplicate id is refused; otherwise the type is stored under its id |
| TipoSolicitudRepository.Repository.Update | MiniTicker.Infrastructure.Persistence/Repositories/TipoSolicitudRepository.cs:29-35 | Null is refused; an unknown id fails as a concurrency error; otherwise exactly that row is overwritten |
| TipoSolicitudRepository.Repository.Delete | MiniTicker.Infrastructure.Persistence/Repositories/TipoSolicitudRepository.cs:37-43 | Null is refused; an unknown id fails; a referenced row is refused by the store; otherwise exactly that row is removed |
| TipoSolicitudRepository.GetById | MiniTicker.Infrastructure.Persistence/Repositories/TipoSolicitudRepository.cs:45-51 | Returns the stored type with that id, and returns none exactly when the id is unknown |
| TicketRepository.Repository.Add | MiniTicker.Infrastructure.Persistence/Repositories/TicketRepository.cs:24-30 | Null is refused; a duplicate id or a duplicate number (unique index) is refused; otherwise the ticket is appended |
| TicketRepository.Repository.Update | MiniTicker.Infrastructure.Persistence/Repositories/TicketRepository.cs:32-38 | Null is refused; an unknown id fails; a number held by another row is refused; otherwise exactly that row is overwritten |
| TicketRepository.Repository.Delete | MiniTicker.Infrastructure.Persistence/Repositories/TicketRepository.cs:40-46 | Null is refused; an unknown id fails; otherwise exactly the row with that id is removed |
| TicketRepository.GetById | MiniTicker.Infrastructure.Persistence/Repositories/TicketRepository.cs:48-61 | Returns a stored ticket with that id, and returns none exactly when no ticket has that id |
| TicketRepository.GetAll | MiniTicker.Infrastructure.Persistence/Repositories/TicketRepository.cs:103-112 | A permutation of the table, newest first |
| TicketRepository.NewerFirstIsTotalPreorder | MiniTicker.Infrastructure.Persistence/Repositories/TicketRepository.cs:184 | Descending creation-date order is a total preorder |
| TicketRepository.EndOfDay | MiniTicker.Infrastructure.Persistence/Repositories/TicketRepository.cs:161 | The exclusive upper bound of a `FechaHasta` date: after the instant, at most one day later, and on a day boundary |
| TicketRepository.Selected | MiniTicker.Infrastructure.Persistence/Repositories/TicketRepository.cs:131-184 | Exactly the tickets that meet every filter criterion, each with its multiplicity, newest first; with no effective criterion it keeps every ticket |
| TicketRepository.GetPaged | MiniTicker.Infrastructure.Persistence/Repositories/TicketRepository.cs:120-201 | A null filter throws. An offset that wraps negative is a SQL error. Otherwise the total is the filtered count before paging, and the items are the page at offset (page-1)*size, with page<=0 read as 1 and size<=0 as 20 |
| TicketRepository.PagedItemsMeetFilter | MiniTicker.Infrastructure.Persistence/Repositories/TicketRepository.cs:131-181 | Every returned ticket is stored and meets each supplied filter: user, state, area, priority, date range with FechaHasta's whole day included, manager presence, and trimmed lower-cased text in the number, subject or description |
| TicketRepository.PagedItemsNewestFirst | MiniTicker.Infrastructure.Persistence/Repositories/TicketRepository.cs:184 | The returned page is ordered newest first |
| TicketRepository.OffsetWraps | MiniTicker.Infrastructure.Persistence/Repositories/TicketRepository.cs:192 | page = pageSize = 65536 wraps the 32-bit offset to -65536 and the query fails |
| TicketRepository.NoFilterSelectsAll | MiniTicker.Infrastructure.Persistence/Repositories/TicketRepository.cs:186-187 | With an empty filter the query succeeds and its total is the size of the whole table |
| TicketRepository.StatusSummary | MiniTicker.Infrastructure.Persistence/Repositories/TicketRepository.cs:202-234 | Null throws. Otherwise the keys are state codes 0..4, a state has a key iff some selected ticket is in it, and the value is that count. The state and date filters are not applied |
| TicketRepository.CountsPartition | MiniTicker.Infrastructure.Persistence/Repositories/TicketRepository.cs:227-233 | The five per-state counts add up to the number of tickets |
| TicketRepository.SummaryTotal | MiniTicker.Infrastructure.Persistence/Repositories/TicketRepository.cs:227-233 | The summary's values add up to the number of tickets its criteria select |
| TicketRepository.SummaryIgnoresStateAndDates | MiniTicker.Infrastructure.Persistence/Repositories/TicketRepository.cs:205-223 | Changing the filter's state, dates, page or page size does not change the summary |
| TicketRepository.NumerosWithPrefix | MiniTicker.Infrastructure.Persistence/Repositories/TicketRepository.cs:69 | Exactly the stored numbers that start with the year prefix |
| TicketRepository.Greatest | MiniTicker.Infrastructure.Persistence/Repositories/TicketRepository.cs:70-72 | None for an empty list; otherwise an element that is greater than or equal to every element in ordinal string order |
| TicketRepository.NextSequenceForYear | MiniTicker.Infrastructure.Persistence/Repositories/TicketRepository.cs:63-83 | The result is a 32-bit value, and it is 1 when no number carries the year prefix |
| TicketRepository.NextSequenceNoMatch | MiniTicker.Infrastructure.Persistence/Repositories/TicketRepository.cs:75-76 | No number with the year prefix gives 1 |
| TicketRepository.NextSequenceOfGreatest | MiniTicker.Infrastructure.Persistence/Repositories/TicketRepository.cs:78-82 | With a match, the result is the parsed suffix of the string-greatest number plus one, in 32-bit wrap-around; an unparsable suffix gives 1 |
| TicketRepository.NextSequenceBelowOne | MiniTicker.Infrastructure.Persistence/Repositories/TicketRepository.cs:80-82 | The result is below 1 exactly when the greatest suffix parses to a negative number or to Int32.MaxValue |
| TicketRepository.NextSequenceFourDigits | MiniTicker.Infrastructure.Persistence/Repositories/TicketRepository.cs:67-82 | When every matching number has a four-digit suffix, the result is one more than the largest suffix value |
| TicketRepository.GreatestHasLargestSuffix | MiniTicker.Infrastructure.Persistence/Repositories/TicketRepository.cs:70 | Among numbers with four-digit suffixes, the string-greatest one has the largest suffix value |
| TicketRepository.NextSequenceRepeatsAfterWidthChange | MiniTicker.Infrastructure.Persistence/Repositories/TicketRepository.cs:70 | With suffixes 9999 and 10000 stored, string order picks 9999 and the allocator returns 10000, a number already in use |
| TicketRepository.NextSequenceNegativeSuffix | MiniTicker.Infrastructure.Persistence/Repositories/TicketRepository.cs:80 | A stored number "SOL-{year}--5" makes the allocator return -4 |
| TicketService.ToTicketDto | MiniTicker.Application/Services/TicketService.cs:219-235 | Copies the ticket's id, number, subject and date and names its state and priority. The area and the type are the stored rows the ticket points at. A reference to no stored row gives the empty placeholder, and for a non-empty id only then |
| TicketService.TicketDtoReadsBack | MiniTicker.Application/Services/TicketService.cs:229-230 | Two listed tickets show the same state name iff they are in the same state, and likewise for the priority |
| TicketService.StatusGuard | MiniTicker.Application/Services/TicketService.cs:110-120 | Passes iff a rejection has a non-blank reason and a close comes from a known administrator. A blank rejection, an unknown closer and a non-administrator closer each get their own error |
| TicketService.Service.Create | MiniTicker.Application/Services/TicketService.cs:42-79 | A missing area and then a missing type give KeyNotFound with nothing added; a duplicate id or number is refused by the store. It succeeds iff none applies. Then exactly one ticket is appended: number SOL-{year}-{count+1:0000}, state Nueva, requester = caller, no manager, fields from the form |
| TicketService.Service.Update | MiniTicker.Application/Services/TicketService.cs:84-100 | A missing ticket is KeyNotFound; a ticket not in Nueva is InvalidOperation; otherwise only subject, description, priority and update time change |
| TicketService.Service.ChangeStatus | MiniTicker.Application/Services/TicketService.cs:105-140 | A missing ticket or a failed guard changes nothing. Otherwise the state becomes the requested one whatever the current state. A non-blank reason also appends exactly one comment by the caller with that text; a blank one adds none |
| TicketService.Service.AssignManager | MiniTicker.Application/Services/TicketService.cs:145-154 | A missing ticket is KeyNotFound; otherwise only the manager and the update time change, with no state precondition |
| TicketService.Service.MapPage | MiniTicker.Application/Services/TicketService.cs:163-167 | One DTO per ticket of the page, in order |
| TicketService.Service.GetPaged | MiniTicker.Application/Services/TicketService.cs:159-176 | The repository's page mapped to DTOs, with its total, page and page size, newest first; repository errors pass through |
| TicketService.NumeroReadsBack | MiniTicker.Application/Services/TicketService.cs:52-53 | A generated number starts with the year prefix, and its suffix parses back to count + 1 |
| TicketService.NumeroInjective | MiniTicker.Application/Services/TicketService.cs:53 | Different counts give different numbers in the same year |
| TicketService.CreationIgnoresAllocator | MiniTicker.Application/Services/TicketService.cs:50-53 | When a non-empty table has no number for the year, the allocator says 1 but creation uses the count instead |
| TicketService.NumberReusedAfterDelete | MiniTicker.Application/Services/TicketService.cs:51-53 | After deleting one of two tickets, the count-based number for the next ticket equals the surviving ticket's number |
| TicketService.ReopeningNeedsNoGuard | MiniTicker.Application/Services/TicketService.cs:110-122 | Moving to Nueva, EnProceso or Resuelta passes the guards from any state, including closed or rejected tickets |
| TicketService.SameNumeroNotTaken | MiniTicker.Application/Services/TicketService.cs:97 | Writing back a stored ticket with its own number never collides with the unique number index |
| AreaService.ValidarResponsableUnico | MiniTicker.Application/Services/AreaService.cs:36-50 | A null candidate passes. Otherwise it passes iff no active area other than the current one has that manager, and a failure names such an area |
| AreaService.GeneratePrefix | MiniTicker.Application/Services/AreaService.cs:95-100 | "GEN" for a blank name; otherwise the first min(3, length) characters of the trimmed, upper-cased name |
| AreaService.PrefixShape | MiniTicker.Application/Services/AreaService.cs:97-99 | A prefix is 1 to 3 characters long, upper-case, and does not start with white space |
| AreaService.PrefixIgnoresSurroundingSpace | MiniTicker.Application/Services/AreaService.cs:98 | Trimming the name first does not change the prefix |
| AreaService.TicketsOf | MiniTicker.Application/Services/AreaService.cs:228 | Exactly the tickets of the area |
| AreaService.Stats | MiniTicker.Application/Services/AreaService.cs:228-259 | Total is the ticket count; completed counts the closed and rejected tickets; active counts the rest; active and completed add up to the total |
| AreaService.MapToDto | MiniTicker.Application/Services/AreaService.cs:226-261 | Copies the area's fields, and its stats add up to its ticket count |
| AreaService.ValidarTicketsPendientes | MiniTicker.Application/Services/AreaService.cs:208-224 | Passes iff every ticket of the area is closed or rejected |
| AreaService.LinkResponsable | MiniTicker.Application/Services/AreaService.cs:81-89 | An existing manager gets the area's id; every other user and the key set are unchanged |
| AreaService.ClearManager | MiniTicker.Application/Services/AreaService.cs:188 | The area with that id loses its manager; every other row is unchanged |
| AreaService.ReplacedClearsManager | MiniTicker.Application/Services/AreaService.cs:188-201 | With unique ids, writing back the stored area without a manager is the same as clearing that area's manager |
| AreaService.Unlinked | MiniTicker.Application/Services/AreaService.cs:178-204 | When both the area and the user exist, the area's manager and the user's area are cleared; otherwise both tables are unchanged |
| AreaService.UnlinkIdempotent | MiniTicker.Application/Services/AreaService.cs:178-204 | Removing a manager a second time leaves the tables as after the first time |
| AreaService.Service.RegistrarEvento | MiniTicker.Application/Services/AreaService.cs:263-282 | The audit log grows by exactly the audit entry, which is empty when the caller's id claim is missing |
| AreaService.Service.PlaceResponsable | MiniTicker.Application/Services/AreaService.cs:81-89 | The user table becomes the link of the manager to the area |
| AreaService.Service.Create | MiniTicker.Application/Services/AreaService.cs:64-93 | A manager conflict is refused first; then a duplicate id or a manager id that names no user is refused by the store. It succeeds iff none applies, and nothing changes on failure. On success an active area with the generated prefix and no tickets is appended, the manager is linked, and one AreaCreada entry is logged |
| AreaService.Service.Update | MiniTicker.Application/Services/AreaService.cs:102-134 | A null form dereferences null. Then a manager conflict, an unknown id, and a manager id that names no user are refused with no change. It succeeds iff none applies. The row is then overwritten; the new manager is linked only when non-null and changed, the old manager keeps its area link, and one AreaActualizada entry is logged |
| AreaService.Service.Overwrite | MiniTicker.Application/Services/AreaService.cs:113-133 | The success path of the update: the row is overwritten, the manager is conditionally linked, the event is logged, and the DTO carries the area's stats |
| AreaService.Service.Activate | MiniTicker.Application/Services/AreaService.cs:136-144 | An unknown id is KeyNotFound with no change; otherwise only the active flag becomes true and one "(Activado)" entry is logged |
| AreaService.Service.Deactivate | MiniTicker.Application/Services/AreaService.cs:146-156 | Pending tickets and then an unknown id are refused with no change. It succeeds iff neither applies. Then only the active flag becomes false and one "(Desactivado)" entry is logged |
| AreaService.Service.Delete | MiniTicker.Application/Services/AreaService.cs:158-177 | Pending tickets, then an unknown id, then references from other tables are refused with no change. It succeeds iff none applies; the row is then removed and one AreaEliminada entry is logged |
| AreaService.Service.QuitarResponsableArea | MiniTicker.Application/Services/AreaService.cs:178-204 | The tables become the unlinked tables; an entry is logged only when both the area and the user exist |
| UserService.GetById | MiniTicker.Application/Services/UserService.cs:26-32 | None exactly for an unknown id; otherwise the user's public fields |
| UserService.EditProfile | MiniTicker.Application/Services/UserService.cs:47-61 | The name changes only for a non-null name; the photo URL changes only when a file was sent and the upload gave a non-blank URL; nothing else changes |
| UserService.EditProfileIdempotent | MiniTicker.Application/Services/UserService.cs:48-60 | Sending the same profile form twice gives the same user as sending it once |
| UserService.EmptyProfileKeepsUser | MiniTicker.Application/Services/UserService.cs:48-60 | A form with no name and no photo changes nothing |
| UserService.Service.UpdateProfile | MiniTicker.Application/Services/UserService.cs:40-66 | A null form is refused, then an unknown id is KeyNotFound, with no change; otherwise only that user becomes the edited profile |
| UserService.Service.ChangeRole | MiniTicker.Application/Services/UserService.cs:68-77 | An unknown id is KeyNotFound with no change; otherwise only the role changes, and the area link is kept |
| UserService.Service.SetActive | MiniTicker.Application/Services/UserService.cs:79-95 | An unknown id is KeyNotFound with no change; otherwise only the active flag changes |
| TipoSolicitudService.Scoped | MiniTicker.Application/Services/TipoSolicitudService.cs:42-46 | With a present, non-empty area id, exactly the base types of that area; otherwise the whole base list |
| TipoSolicitudService.ListItem | MiniTicker.Application/Services/TipoSolicitudService.cs:53-58 | The type's DTO, with TieneTickets true iff some ticket references the type |
| TipoSolicitudService.Service.GetAll | MiniTicker.Application/Services/TipoSolicitudService.cs:34-64 | One list item per scoped type, in order |
| TipoSolicitudService.Service.RegistrarEvento | MiniTicker.Application/Services/TipoSolicitudService.cs:176-195 | The audit log grows by exactly the audit entry |
| TipoSolicitudService.Service.Create | MiniTicker.Application/Services/TipoSolicitudService.cs:74-89 | A null form is refused. The id is the form's when non-empty and fresh otherwise. A taken id or an unknown area is refused with no change; otherwise the type is stored and one TipoSolicitudCreado entry is logged |
| TipoSolicitudService.Service.Update | MiniTicker.Application/Services/TipoSolicitudService.cs:91-105 | A null form is refused, then an unknown id is KeyNotFound. Otherwise exactly the name, area and active flag are overwritten and one event is logged |
| TipoSolicitudService.Service.SetActive | MiniTicker.Application/Services/TipoSolicitudService.cs:111-129 | An unknown id is KeyNotFound with no change; otherwise only the active flag changes, and one "(Activado)" or "(Desactivado)" entry is logged |
| TipoSolicitudService.Service.Delete | MiniTicker.Application/Services/TipoSolicitudService.cs:131-170 | Open tickets of the type are refused before the existence lookup; success happens iff neither applies. Referenced by tickets: soft delete (inactive, kept). Unreferenced: removed. Either way one TipoSolicitudEliminado entry is logged |
| ErrorHandlerMiddleware.StatusCode | MiniTicker.WebApi/Middleware/ErrorHandlerMiddleware.cs:28-46 | 400 iff InvalidOperation or Argument (subclasses included), 404 iff KeyNotFound, 401 iff UnauthorizedAccess, 500 for everything else |
| ErrorHandlerMiddleware.Handle | MiniTicker.WebApi/Middleware/ErrorHandlerMiddleware.cs:25-49 | The response carries the status of the exception's class, a JSON content type and the exception's message |
| ErrorHandlerMiddleware.UnexpectedFailuresAre500 | MiniTicker.WebApi/Middleware/ErrorHandlerMiddleware.cs:43-45 | NotImplemented, null dereference and database failures all answer 500 |
| ErrorHandlerMiddleware.NullArgumentIs400 | MiniTicker.WebApi/Middleware/ErrorHandlerMiddleware.cs:31-33 | ArgumentNullException answers 400 because it is an ArgumentException |
| ActivityService.CortarTexto | MiniTicker.Application/Services/ActivityService.cs:200-204 | Null or empty gives "..."; up to 30 characters are kept as they are; longer text gives its first 30 characters + "..."; the length is 1 to 33 |
| ActivityService.CalcularHaceCuanto | MiniTicker.Application/Services/ActivityService.cs:206-215 | Under a minute gives "Hace un momento"; a week or more gives the absolute date label |
| ActivityService.HaceCuantoCountsWholeUnits | MiniTicker.Application/Services/ActivityService.cs:209-212 | In the minute, hour and day buckets the label is "Hace N min/h/d" with N the whole units elapsed, N within the bucket's range |
| ActivityService.TicketMessagePerson | MiniTicker.Application/Services/ActivityService.cs:132-154 | Every third-person ticket message opens with the actor's name; the first-person one does not depend on the actor |
| ActivityService.SystemMessagePerson | MiniTicker.Application/Services/ActivityService.cs:156-196 | Every third-person system message opens with the actor's name; the first-person one does not depend on the actor |
| ActivityService.CrearDtoTicket | MiniTicker.Application/Services/ActivityService.cs:102-114 | Titled "Ticket {Numero}" of the event's ticket, or "Ticket Eliminado" when it is gone; carries the ticket id, the event's message, relative time and type |
| ActivityService.CrearDtoSistema | MiniTicker.Application/Services/ActivityService.cs:116-128 | Titled "Sistema" with no ticket id; carries the event's message, relative time and type |
| ActivityService.TicketItems | MiniTicker.Application/Services/ActivityService.cs:33-38 | One item per ticket event, in order, in the first person exactly for the viewer's own events |
| ActivityService.SystemItems | MiniTicker.Application/Services/ActivityService.cs:79-88 | One item per system event, in order, in the first person exactly for the viewer's own events |
| ActivityService.MySystemItems | MiniTicker.Application/Services/ActivityService.cs:45-49 | One first-person item per own system event, in order |
| ActivityService.NewerFirstIsTotalPreorder | MiniTicker.Application/Services/ActivityService.cs:52-55 | Descending date order of feed items is a total preorder |
| ActivityService.MySystemEvents | MiniTicker.Application/Services/ActivityService.cs:42-43 | Exactly those of the 50 newest system events written by the user |
| ActivityService.GlobalSystemEvents | MiniTicker.Application/Services/ActivityService.cs:75-88 | None when limited to an area; otherwise those of the 30 newest with the target user, or all 30 without a target |
| ActivityService.Feed | MiniTicker.Application/Services/ActivityService.cs:52-55 | A newest-first permutation of the items that keeps equal-date items in their original order |
| ActivityService.MyActivity | MiniTicker.Application/Services/ActivityService.cs:27-56 | Newest first, and a permutation of the ticket items plus the user's own system items; its length is the sum of the two |
| ActivityService.GlobalActivity | MiniTicker.Application/Services/ActivityService.cs:61-96 | Newest first, and a permutation of the ticket items plus the selected system items; its length is the sum of the two |
| ActivityService.MySystemItemsAreOwn | MiniTicker.Application/Services/ActivityService.cs:47-48 | For the personal feed's own events, the always-first-person rendering equals the viewer-dependent rendering |
| ActivityService.ItemPerson | MiniTicker.Application/Services/ActivityService.cs:67-88 | The viewer's own events use the first-person text; other users' events open with the author's name or the fallback |
| ActivityService.MyActivityOrigin | MiniTicker.Application/Services/ActivityService.cs:29-55 | Every personal item is a rendered ticket event, or one of the user's own recent system events |
| ActivityService.GlobalActivityOrigin | MiniTicker.Application/Services/ActivityService.cs:63-95 | Every dashboard item is a rendered ticket event or a selected recent system event; with an area, only ticket events |
| ActivityService.SameInstantTicketsFirst | MiniTicker.Application/Services/ActivityService.cs:92-95 | At equal dates, ticket items precede system items and keep their order |
| ActivityService.Service.AddTicketItems | MiniTicker.Application/Services/ActivityService.cs:67-72 | The loop builds exactly the ticket items |
| ActivityService.Service.AddOwnSystemItems | MiniTicker.Application/Services/ActivityService.cs:45-49 | The loop builds exactly the own system items |
| ActivityService.Service.AddSystemItems | MiniTicker.Application/Services/ActivityService.cs:79-88 | The loop builds exactly the items of the events kept by the target filter |
| ActivityService.Service.GetMyActivity | MiniTicker.Application/Services/ActivityService.cs:27-56 | The personal feed of the stored tables, with at most 50 + 50 items |
| ActivityService.Service.GetGlobalActivity | MiniTicker.Application/Services/ActivityService.cs:61-96 | The dashboard feed of the stored tables, with at most 100 + 30 items; with an area, exactly the ticket events |
| TicketController.Scope | MiniTicker.WebApi/Controllers/TicketController.cs:94-111 | Solicitante: user forced to the caller. Gestor with an area: area forced to that area. Gestor without one, and administrators: the filter as sent |
| TicketController.ScopeIdempotent | MiniTicker.WebApi/Controllers/TicketController.cs:95-111 | Scoping an already scoped filter changes nothing |
| TicketController.ScopedPageInReach | MiniTicker.WebApi/Controllers/TicketController.cs:86-117 | Under the scoped filter a requester only sees their own tickets, and a manager with an area only that area's |
| TicketController.ScopedSummaryInReach | MiniTicker.WebApi/Controllers/TicketController.cs:145-159 | The status summary counts only tickets within the same reach |
| TicketController.AddComment | MiniTicker.WebApi/Controllers/TicketController.cs:191-207 | A null form and then blank text are a 400, and a missing caller is a 401. It succeeds iff none applies, passing the ticket id, the text and the caller |
| TicketController.CambioDescripcion | MiniTicker.WebApi/Controllers/TicketController.cs:250-252 | "Motivo: {Texto}" when the text is non-empty, otherwise "Cambio de estado de {old} a {new}" |
| TicketController.EventItem | MiniTicker.WebApi/Controllers/TicketController.cs:226-266 | A history item for an event: its minute, type, states and description, with no visibility flags |
| TicketController.CommentItem | MiniTicker.WebApi/Controllers/TicketController.cs:269-285 | A history item for a comment: type ComentarioADD, the comment's text, visible to the requester and not manager-only |
| TicketController.EventItems | MiniTicker.WebApi/Controllers/TicketController.cs:226-267 | One item per event, in order, attributed to the author's name or "Desconocido" |
| TicketController.CommentItems | MiniTicker.WebApi/Controllers/TicketController.cs:269-285 | One item per comment, in order, attributed to the author's name or "Usuario" |
| TicketController.EarlierMinuteFirstIsTotalPreorder | MiniTicker.WebApi/Controllers/TicketController.cs:287 | Ascending minute order is a total preorder |
| TicketController.HistoryEntries | MiniTicker.WebApi/Controllers/TicketController.cs:217-287 | Ascending by minute; a permutation of the event items plus the comment items; equal minutes keep events first, in their order |
| TicketController.Historial | MiniTicker.WebApi/Controllers/TicketController.cs:212-290 | NotFound exactly when the ticket does not exist; otherwise 200 |
| TicketController.HistorialCounts | MiniTicker.WebApi/Controllers/TicketController.cs:223-287 | One item per event of the ticket plus one per comment; every item flagged visible to the requester is one of that ticket's comments |
| TicketController.FlaggedEntryIsComment | MiniTicker.WebApi/Controllers/TicketController.cs:281 | A history entry flagged visible to the requester comes from a comment |
| TicketController.Controller.GetPaged | MiniTicker.WebApi/Controllers/TicketController.cs:86-118 | A missing caller is a 401; otherwise the service page of the role-scoped filter, with a thrown error passed on |
| TicketController.Controller.GetStatusSummary | MiniTicker.WebApi/Controllers/TicketController.cs:143-160 | A missing caller is a 401; otherwise the summary of the role-scoped filter |
| TicketController.Controller.AddEventItems | MiniTicker.WebApi/Controllers/TicketController.cs:226-267 | The loop builds exactly the event items |
| TicketController.Controller.AddCommentItems | MiniTicker.WebApi/Controllers/TicketController.cs:269-285 | The loop builds exactly the comment items |
| TicketController.Controller.GetHistorial | MiniTicker.WebApi/Controllers/TicketController.cs:210-290 | The history response of the stored tables |
| Text.Trim | MiniTicker.Application/Services/AreaService.cs:98 | String.Trim: the result is the slice of the input left after dropping leading and trailing white space; what is dropped is all white space, and the result has no white space at either end |
| Numbers.Padded | MiniTicker.Application/Services/TicketService.cs:53 | `ToString("0000")`: digits only, at least the given width, and reads back to the number |
| Numbers.PaddedRoundTrip | MiniTicker.Application/Services/TicketService.cs:53 | A padded number parses back to itself |
| Numbers.ParseInt32 | MiniTicker.Infrastructure.Persistence/Repositories/TicketRepository.cs:80 | Int32.TryParse: any value it gives is within the 32-bit range |
| Numbers.ParseNegative | MiniTicker.Infrastructure.Persistence/Repositories/TicketRepository.cs:80 | A leading minus sign is accepted |
| Numbers.Wrap32 | MiniTicker.Infrastructure.Persistence/Repositories/TicketRepository.cs:81 | Unchecked 32-bit arithmetic: in range, congruent modulo 2^32, and the identity in range |
| Numbers.Wrap32Successor | MiniTicker.Infrastructure.Persistence/Repositories/TicketRepository.cs:81 | Adding one wraps only at Int32.MaxValue |
| Numbers.Digits | MiniTicker.Application/Services/ActivityService.cs:210 | Interpolating a count: digits only, no leading zero, and reads back to the number |
| Sorting.SortByStable | MiniTicker.Application/Services/ActivityService.cs:52-55 | The stable sort keeps equal elements in their original order |
| Sorting.SortBySorted | MiniTicker.Infrastructure.Persistence/Repositories/TicketEventRepository.cs:28 | Under a total preorder the sort's output is sorted |
| Wrappers.Page | MiniTicker.Infrastructure.Persistence/Repositories/TicketRepository.cs:194-197 | Skip and Take: an offset slice of at most the page size |
| Wrappers.Filter | MiniTicker.Application/Services/ActivityService.cs:43 | Where: exactly the elements that satisfy the predicate, in order |
| Wrappers.FirstIndex | MiniTicker.Application/Services/AreaService.cs:42-44 | FirstOrDefault: the first index that satisfies the predicate, or none when no element does |
| Numbers.ParseDigits | MiniTicker.Infrastructure.Persistence/Repositories/TicketRepository.cs:80 | A run of digits whose value fits in 32 bits parses to that value |

## Left out

- The `CancellationToken` overloads of `TicketService` (MiniTicker.Application/Services/TicketService.cs:259-287) only throw `NotImplementedException`. The controller calls these overloads (MiniTicker.WebApi/Controllers/TicketController.cs:75, 116, 124, 139, 170, 181, 214), so in the deployed code those endpoints answer 500, as `ErrorHandlerMiddleware.UnexpectedFailuresAre500` states. The model composes the controller with the logic bodies at lines 42-214 instead.
- `TicketService.GetByIdAsync` (MiniTicker.Application/Services/TicketService.cs:181-214) builds the ticket detail from navigation properties, with its user mapping `MapUser` (lines 247-257). It is used only as the existence test of the history endpoint.
- `TicketController.AddComment`: the service it would call has no implementation, so the model returns the request that would be passed on.
- The plain reads are not modelled: the area service's `GetAllAsync`/`GetByIdAsync` (MiniTicker.Application/Services/AreaService.cs:51-62), `UserService.GetAllAsync` (MiniTicker.Application/Services/UserService.cs:34-38) and `TipoSolicitudService.GetByIdAsync` (MiniTicker.Application/Services/TipoSolicitudService.cs:66-72). They only map rows to DTOs.
- `TicketHistoryDto.TipoComentario` is never assigned by the controller, so it is absent from the model.
- Claim parsing (`TryGetUserId`, the `NameIdentifier` claim in `RegistrarEvento`) becomes the caller parameter, `None` when the claim is missing or not a Guid. Role claims become one `Rol` value.
- The clock is the `now` parameter. Date-to-text formatting (`ToLocalTime().ToString(...)`) is a formatter function parameter.
- `TicketController.HistoryEntries`: the history sorts on the text it formats (`ParseExact` to the minute). The model sorts on the minute of the instant, which agrees when the local offset is constant.
- `GetRecentByUserIdAsync` and `GetGlobalRecentAsync` of the ticket-event repository have no implementation in the repository. Their results are inputs, constrained by `TicketEventRepository.AdmissibleRecent` to at most the requested number of logged events.
- The `SaveChanges` override that stamps creation and update times is not modelled; the services' own assignments are.
- String comparison and `Contains`/`ToLower` are ordinal; the database collation is not modelled. SQL `ORDER BY` ties keep storage order.
- `Guid.ToString()` in messages is written as the decimal id (`IdText`).
- Database constraints the model enforces: the primary keys of every table, the unique index on `Ticket.Numero` (`TicketRepository.Repository.Add`/`Update`), the unique index on `Usuario.Email` (`UserRepository.Repository.Add`/`Update`), the foreign key from an area to its manager (`AreaService.Service.Create`/`Update`), the foreign key from a request type to its area (`TipoSolicitudService.Service.Create`/`Update`), and the restricted deletes of areas and request types (as the `referenced`/`tiposReferencing` parameters).
- Database constraints the model does not enforce: the foreign keys from a ticket to its requester and its assigned manager (`TicketService.Service.Create` stores any caller id, `TicketService.Service.AssignManager` any manager id), from a comment or a ticket event to its ticket and its author, and from a system event to its user; the cascade that removes a ticket's comments and events with it (`TicketRepository.Repository.Delete`); and the column length limits (long text is stored where the database would refuse it).
- Add (`UserRepository.Repository.Add`): emails are compared exactly; the database's case-insensitive collation, under which two addresses differing only in case collide, is not modelled.
- `TipoSolicitudService.Service.GetAll`: the base list comes from the repository's `GetAllAsync`, which is not part of this model, so it is a parameter.
- The `default` branches of the message switches cannot be reached, because the enumerations are matched in full.
- `UserService.Service.SetActive` and `TipoSolicitudService.Service.SetActive` model both `ActivateAsync` and `DeactivateAsync`, with `activo` true and false.
- The `ActivityDto.cs` shown lacks `FechaCreacion`, but the service sets it and sorts on it, so the model includes it.
- Navigation properties (`Ticket.Area`, `Area.Tickets` and the rest) are lookups in the tables.
- The `Prioridad` enumeration is not part of this model; it is taken as `Baja`, `Media` and `Alta`.
- `AreaService.Service.Delete`: whether other rows reference the area, which makes the store refuse the delete, is an oracle parameter (`tiposReferencing`), because those rows live in tables the area repository does not see.
- Concurrency and asynchrony are not modelled: each call runs to completion on one state.
- File upload is not modelled: its result is the `uploadedUrl` parameter.
- `Numbers.ParseInt32`: its contract states only the 32-bit range. What it parses is pinned down by `Numbers.ParseDigits`, `Numbers.PaddedRoundTrip` and `Numbers.ParseNegative`.
- GeneratePrefix (`AreaService.GeneratePrefix`): `ToUpper` is modelled for ASCII and the Latin-1 letters only; other cased letters (`ÿ`, `µ`, Greek, Cyrillic and the rest) stay as they are, where .NET maps them. `TicketRepository.Selected` and `TicketRepository.PagedItemsMeetFilter` depend on `ToLower` over the same range for the text search.
- CortarTexto (`ActivityService.CortarTexto`): a Dafny `char` is a Unicode scalar value, not a UTF-16 code unit, so lengths and cuts differ from .NET for characters outside the Basic Multilingual Plane; the same holds for `AreaService.GeneratePrefix`'s three-character cut and for the ordinal order `Text.LexLe` behind `AreaRepository.GetAll` and `TicketRepository.Greatest`.
- Create, Update and ChangeStatus (`TicketService.Service.Create`, `Update`, `ChangeStatus`) return the stored `Ticket` entity; the source returns it mapped by `MapToTicketDtoAsync` (MiniTicker.Application/Services/TicketService.cs:78, 99, 139), which is `TicketService.ToTicketDto` of that entity.
