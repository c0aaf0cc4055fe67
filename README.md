# administracion-departamentos: expiry monitoring, notifications and form rules

This project models the faculty-administration system's expiry-monitoring and notification pipeline, and the rules its web front end enforces, and proves properties of the model.

**The backend pipeline** (`Tasks`):
- A daily scan selects department-head terms whose end date has been reached or is at most 30 days away, and enqueues one e-mail dispatch for each.
- Each dispatch looks the person up, refuses a person without e-mail and stores a `Notificacion` row. It then hands the mail to the transport and sets the `notificado` flag of the person's term.
- Any other error is retried, up to three times, 60 seconds apart.
- A cleanup deletes notifications older than 180 days.

**The backend endpoints beside the pipeline:**
- `NotificacionApi`: `marcar_leida`, `crear_notificacion` and the newest-first listing.
- `JefeDepartamentoApi`: the soft delete and its visibility rule, pagination bounds, and the 30-day expiry listing.
- `AsignaturaDocenteApi`: the subject filter and the `dias` expiry window.
- `UsuariosApi`: the user partial update with its reactivation rule, and the `is_active` list filter.

**The front end:**
- `DateHelpers`: date-string helpers.
- `UrlHelpers`: API URL normalisation.
- `UseSearch`: the search hook's URL building, page arithmetic and page transitions.
- `ResetPassword`: the reset-password page.
- `ChangePassword`: the change-password page.
- `UsuariosCreate`: the user form.
- `DepartamentoJefeCreate`: the department-head form.
- `DepartmentsCreate`: the department form.
- `PersonsCreate`: the person form.

**Shared modules** give the JavaScript and Python operations these rely on a precise meaning:
- `JsText`: `trim`, `split`, `replace`, `padStart`, ASCII case mapping.
- `JsNumber`: `parseInt` and `Number`.
- `PyText`: Python's `int()`.
- `ErrorBody`: reading an error reply's fields.

**How state is modelled.**
- The database is a class, `Models.Database`, whose tables are sequences of records. Each backend operation is a method that `modifies` it. Its `ensures` ties the new state to a pure function of the old state, and the lemmas are proved about those functions.
- Front-end pages whose handlers update component state are classes with those fields.
- The clock, the mail transport's outcome, the HTTP reply, `new URL`, the dayjs library and `JSON.stringify` are parameters of the operations that use them.

Where the repository's written description and the code disagree, the model follows the code:
- The scan has no lower bound on the end date, so long-expired terms are still selected.
- The notification row is stored before the mail is sent, so every retried attempt stores another row.
- The `notificado` flag is found by person with `.get()`. A person holding two terms makes the mark step raise after the mail went out. The attempt is then retried, mailing the person again on every attempt.
- The scan reads `notificado` but never sets it.

## Model

| member | source | states |
|---|---|---|
| Models.FindPersona | backend/facet/departamentos/tasks.py:17 | the person found has the requested key and comes from the table; none is found only when no row has that key |
| Models.StrftimeShape | backend/facet/departamentos/tasks.py:146 | `%d/%m/%Y` of a date with a four-digit year is ten characters with '/' at positions 2 and 5 |
| Tasks.OnException | backend/facet/departamentos/tasks.py:57-62 | the generic handler retries, with countdown 60, exactly while `retries < max_retries` (3); otherwise it returns an error result naming the cause |
| Tasks.FirstOf | backend/facet/departamentos/tasks.py:40 | the first position holding the person's id, and none exactly when no term belongs to the person |
| Tasks.CountOfZero | backend/facet/departamentos/tasks.py:40-44 | `.get()` finds no term exactly when the person holds none |
| Tasks.CountOfOne | backend/facet/departamentos/tasks.py:40-44 | with exactly one match, `.get()` returns that term and every other term belongs to someone else |
| Tasks.Attempt | backend/facet/departamentos/tasks.py:12-62 | an attempt asks for a retry only while `retries < 3`, and always with a 60-second countdown |
| Tasks.Run | backend/facet/departamentos/tasks.py:11 | a dispatch starting from `retries` runs between 1 and `4 - retries` attempts |
| Tasks.Dispatched | backend/facet/departamentos/tasks.py:11 | a dispatch runs at most `max_retries + 1` = 4 attempts |
| Tasks.AttemptEvolves | backend/facet/departamentos/tasks.py:24-51 | one attempt only appends notification rows and mails and only sets `notificado`, never clears it |
| Tasks.RunEvolves | backend/facet/departamentos/tasks.py:24-61 | the same holds for a whole dispatch, retries included |
| Tasks.AttemptKeepsValid | backend/facet/departamentos/tasks.py:24-51 | one attempt keeps the database constraints: every term's holder exists and every notification id is below the id sequence |
| Tasks.RunKeepsValid | backend/facet/departamentos/tasks.py:24-61 | a whole dispatch, retries included, keeps the database constraints |
| Tasks.UnknownPersonaIsFinal | backend/facet/departamentos/tasks.py:53-55 | an unknown person ends the task at once with "Persona no encontrada": one attempt, nothing changed, no retry |
| Tasks.NoEmailIsFinal | backend/facet/departamentos/tasks.py:19-21 | a person without e-mail ends the task at once with an error: no row, no mail, no retry |
| Tasks.AttemptSuccess | backend/facet/departamentos/tasks.py:24-51 | a successful attempt had a delivering transport. It appended exactly one unread row for that person, message and instant, and mailed exactly `[persona.email]`. It returns that address and the new row's id |
| Tasks.SuccessMarksTheTerm | backend/facet/departamentos/tasks.py:39-98 | with a delivering transport and at most one term of the person in the task's table, the attempt succeeds. The department-head task (lines 39-44) sets `notificado` on exactly the person's department-head term and leaves the subject terms alone; the subject-teacher task (lines 93-98) sets it on exactly the person's subject term and leaves the department-head terms alone. A person with no term still succeeds with no flag changed |
| Tasks.FailedSendKeepsRow | backend/facet/departamentos/tasks.py:24-36 | when the send raises, the stored row stays, nothing is mailed, no flag changes and the handler decides the retry |
| Tasks.AttemptStoresOneRow | backend/facet/departamentos/tasks.py:24-36 | for a person with an e-mail, every attempt stores exactly one row and mails once exactly when the transport delivers |
| Tasks.RowPerAttempt | backend/facet/departamentos/tasks.py:24-61 | a dispatch leaves one new row per attempt, all for that person and message and unread. It hands over one mail per delivering attempt |
| Tasks.AllSendsRaise | backend/facet/departamentos/tasks.py:57-62 | when every send raises, the task runs 4 times and returns an error. It leaves 4 rows, mails nothing and changes no flag |
| Tasks.SharedHolderIsMailedOnEveryAttempt | backend/facet/departamentos/tasks.py:30-62 | a person holding two department-head terms is mailed on all 4 attempts, and the task ends with `MultipleObjectsReturned` and no flag set |
| Tasks.RetriedUntilDelivered | backend/facet/departamentos/tasks.py:30-61 | for either task, `n` raising sends followed by a delivery end the task successfully after `n + 1` attempts, with exactly one mail |
| Tasks.Selection | backend/facet/departamentos/tasks.py:126-140 | every selected term is a term of the table meeting the scan's condition |
| Tasks.SelectionExact | backend/facet/departamentos/tasks.py:126-140 | a term is selected exactly when it has an end date at or before the limit, is active and is not yet notified |
| Tasks.ExpiredTermIsSelected | backend/facet/departamentos/tasks.py:127-131 | there is no lower bound: an active, unnotified term that ended in an earlier year is selected |
| Tasks.ReminderText | backend/facet/departamentos/tasks.py:142-153 | the reminder starts with the greeting and the person's name, and writes the end date as `dd/mm/yyyy` after the department |
| Tasks.RenewalMessage | backend/facet/departamentos/tasks.py:142-153 | the message for a term is a reminder carrying that term's end date |
| Tasks.RequestFor | backend/facet/departamentos/tasks.py:156-160 | the dispatch for a term goes to its holder, with the reminder subject, through the department-head task |
| Tasks.Requests | backend/facet/departamentos/tasks.py:156-160 | one dispatch per selected term, in order, to that term's holder |
| Tasks.NotifiedTermLeavesTheScan | backend/facet/departamentos/tasks.py:139-140 | once a dispatch for the holder of a single term has succeeded, a later scan no longer selects that term |
| Tasks.Retained | backend/facet/departamentos/tasks.py:178-181 | every kept notification comes from the table and is at least as recent as `now - 180 days` |
| Tasks.CleanupExact | backend/facet/departamentos/tasks.py:178-184 | a row survives exactly when `fecha_creacion >= now - 180 days`; kept and deleted rows add up to the table |
| Tasks.CleanupKeepsValid | backend/facet/departamentos/tasks.py:178-184 | the cleanup keeps the database constraints |
| Tasks.BoundaryRowIsKept | backend/facet/departamentos/tasks.py:180 | the comparison is strict: a row exactly 180 days old is kept |
| Tasks.DispatchAttempt | backend/facet/departamentos/tasks.py:12-62 | one attempt run on the database leaves the state and outcome `Attempt` describes |
| Tasks.RunDispatch | backend/facet/departamentos/tasks.py:11-62 | the retry loop on the database leaves the state, result and attempt count of `Dispatched` |
| Tasks.ProcessNext | backend/facet/departamentos/tasks.py:156-160 | the worker runs the oldest enqueued dispatch on the rest of the queue |
| Tasks.VerificarDocumentacionesTask | backend/facet/departamentos/tasks.py:119-165 | the scan enqueues one dispatch per selected term, after what was queued, and returns how many |
| Tasks.EnqueueDue | backend/facet/departamentos/tasks.py:135-162 | the scan loop for a given limit: the queue grows by the dispatches of the selected terms, in order, and the counter is their number |
| Tasks.ScanStep | backend/facet/departamentos/tasks.py:139-162 | one more term adds its dispatch when it is selected and nothing otherwise |
| Tasks.LimpiarNotificacionesAntiguas | backend/facet/departamentos/tasks.py:172-184 | the cleanup keeps the retained rows in order and returns the number deleted |
| NotificacionApi.NewestFirst | backend/facet/departamentos/apis/notificacion.py:15 | the listing is the same rows, as a multiset, ordered newest first |
| NotificacionApi.NewestFirstKeepsSorted | backend/facet/departamentos/apis/notificacion.py:15 | ordering a listing that is already newest first changes nothing |
| NotificacionApi.IndexOfId | backend/facet/departamentos/apis/notificacion.py:26 | the row found has the requested key, and none is found only when no row has it |
| NotificacionApi.MarkReadOnlyLeido | backend/facet/departamentos/apis/notificacion.py:23-29 | marking fails exactly when no row has the key. Otherwise the row with the key becomes itself with `leido` set, and every other row stays as it was |
| NotificacionApi.MarkReadIdempotent | backend/facet/departamentos/apis/notificacion.py:23-29 | marking the same notification twice leaves the table as marking it once |
| NotificacionApi.MarcarLeida | backend/facet/departamentos/apis/notificacion.py:23-29 | 200 with the row marked, 404 with nothing changed when no row has the key |
| NotificacionApi.CrearContract | backend/facet/departamentos/apis/notificacion.py:31-44 | 400 "Faltan datos" exactly when `persona_id` or `mensaje` is missing or empty, and then nothing is stored. A 201 appends exactly one unread row for that person, message and instant. No mail is sent and no flag changes |
| NotificacionApi.CrearAccepts | backend/facet/departamentos/apis/notificacion.py:40-44 | a known person id with a non-empty message is created with that message |
| NotificacionApi.CrearNotificacion | backend/facet/departamentos/apis/notificacion.py:31-44 | the endpoint on the database leaves the outcome and state `Crear` describes |
| JefeDepartamentoApi.VisibleIff | backend/facet/departamentos/apis/jefeDepartamento.py:48-64 | a row is visible exactly when `show_all` is any non-empty text (even "false"), an `estado` parameter is present, or the row is active |
| JefeDepartamentoApi.VisibleIndex | backend/facet/departamentos/apis/jefeDepartamento.py:41-46 | the row found by `destroy` has the key and is visible; none is found only when no visible row has the key |
| JefeDepartamentoApi.SoftDeleteKeepsRow | backend/facet/departamentos/apis/jefeDepartamento.py:41-46 | the delete keeps every row and sets only the deleted row's `estado` to "0". A default request no longer sees that row, while a `show_all` request does |
| JefeDepartamentoApi.DeletedIsNotFound | backend/facet/departamentos/apis/jefeDepartamento.py:41-64 | deleting the same row again with a default request finds nothing |
| JefeDepartamentoApi.Destroy | backend/facet/departamentos/apis/jefeDepartamento.py:41-46 | 204 with the soft delete applied, 404 with nothing changed |
| JefeDepartamentoApi.PageSize | backend/facet/departamentos/apis/jefeDepartamento.py:16-19 | the page size is 10 by default or for an unreadable or non-positive `page_size`, and a positive one is capped at 100 |
| JefeDepartamentoApi.NumPages | backend/facet/departamentos/apis/jefeDepartamento.py:16-19 | at least one page, the fewest pages that hold every row |
| JefeDepartamentoApi.PageOf | backend/facet/departamentos/apis/jefeDepartamento.py:16-19 | a page number is served exactly when it lies between 1 and the page count |
| JefeDepartamentoApi.RowOnItsPage | backend/facet/departamentos/apis/jefeDepartamento.py:16-19 | row `i` is on page `i / size + 1` at position `i % size`, and that page holds at most `size` rows |
| JefeDepartamentoApi.NumPagesCovers | backend/facet/departamentos/apis/jefeDepartamento.py:16-19 | every page a row lands on is within the page count |
| JefeDepartamentoApi.FirstPageExists | backend/facet/departamentos/apis/jefeDepartamento.py:16-19 | without a `page` parameter the first page is served, even for no rows |
| JefeDepartamentoApi.LastPageServed | backend/facet/departamentos/apis/jefeDepartamento.py:16-19 | `page=last` is always served, and for a non-empty listing its page ends with the last row |
| JefeDepartamentoApi.PageIsSlice | backend/facet/departamentos/apis/jefeDepartamento.py:16-19 | a page holds only rows of the listing |
| JefeDepartamentoApi.WindowIff | backend/facet/departamentos/apis/jefeDepartamento.py:153-160 | a term is listed exactly when `today <= fecha_de_fin <= today + 30`, whatever its `estado` and `notificado` |
| JefeDepartamentoApi.ListedItems | backend/facet/departamentos/apis/jefeDepartamento.py:150-199 | every item echoes a term in the window (id, `estado`, `notificado`, end date). The holder's e-mail is their address, or "No disponible" when they have none |
| AsignaturaDocenteApi.DetalleRecordOf | backend/facet/departamentos/apis/asignaturaDocente.py:43-63 | a `list_detalle` record echoes every field of the term, `estado` included, and the teacher's id. It carries the teacher's person (id, names, dni, `estado`, e-mail) exactly when that person exists |
| AsignaturaDocenteApi.ExpiringRecordOf | backend/facet/departamentos/apis/asignaturaDocente.py:83-100 | a `proximos_a_vencer` record echoes the term's fields without `estado`, and the teacher's id. It carries the teacher's person (id, names, dni; no `estado`, no e-mail) exactly when that person exists |
| AsignaturaDocenteApi.OfSubjectIff | backend/facet/departamentos/apis/asignaturaDocente.py:39-41 | a term is kept exactly when its subject is the requested one |
| AsignaturaDocenteApi.ListDetalleOnlySubject | backend/facet/departamentos/apis/asignaturaDocente.py:33-68 | a successful `list_detalle` read an integer parameter. Every term of that subject is listed, and every record is such a term |
| AsignaturaDocenteApi.ExpiringIff | backend/facet/departamentos/apis/asignaturaDocente.py:78-81 | a term is in the window exactly when `now <= fecha_de_vencimiento <= limit`, whatever its `estado` and `notificado` |
| AsignaturaDocenteApi.ProximosWindow | backend/facet/departamentos/apis/asignaturaDocente.py:70-105 | every term in `[now, now + dias]` is listed and every record is such a term. A successful request had an integer `dias` within timedelta's range |
| AsignaturaDocenteApi.DiasDefault | backend/facet/departamentos/apis/asignaturaDocente.py:75 | `dias` defaults to 30, and a `dias` that `int()` cannot read makes the request fail |
| UsuariosApi.IndexOfUser | backend/facet/usuarios/views/apis.py:34 | the account found has the key, and none is found only when no account has it |
| UsuariosApi.FindRol | backend/facet/usuarios/views/apis.py:45-46 | the role found has the id and comes from the table, and none is found only when no role has it |
| UsuariosApi.UpdateOnlyGivenFields | backend/facet/usuarios/views/apis.py:35-46 | each of apellido, nombre, legajo, documento and email changes only when given and not null, and then to the given value. The id never changes. A given role is replaced by the role with that id |
| UsuariosApi.UpdatedAssigns | backend/facet/usuarios/views/apis.py:35-46 | the updated account's fields are the assigned ones, and its role is the one the request resolves to |
| UsuariosApi.ActivationRule | backend/facet/usuarios/views/apis.py:47-51 | a truthy `is_active` resets the password to the documento after this update and clears `has_changed_password`. A false one changes only `is_active` |
| UsuariosApi.FalseStringResetsPassword | backend/facet/usuarios/views/apis.py:47-51 | the text "False" is truthy: it deactivates the account and also resets its password, while JSON `false` only deactivates |
| UsuariosApi.UpdateErrors | backend/facet/usuarios/views/apis.py:27-55 | an unknown user, or a given role id with no role, is an error. A success changes no other account |
| UsuariosApi.UserStore.Update | backend/facet/usuarios/views/apis.py:27-55 | 200 with the update saved; 400 with the error and nothing saved |
| UsuariosApi.IsActiveFilter | backend/facet/usuarios/views/apis.py:80-85 | `is_active` is read only as "true" or "false" in any letter case; any other value is ignored |
| UsuariosApi.FilterActiveIff | backend/facet/usuarios/views/apis.py:80-85 | with a recognised `is_active` a user is listed exactly when its flag matches; otherwise every user is listed |
| UsuariosApi.IsActiveSpellings | backend/facet/usuarios/views/apis.py:82-85 | "TRUE" and "False" are recognised; "yes" and "" are ignored |
| DateHelpers.IsoTextOf | frontend/src/utils/dateHelpers.ts:8-19 | no text for null or "", nor for a split on '/' that does not give three parts |
| DateHelpers.IsoTextOfParts | frontend/src/utils/dateHelpers.ts:11-14 | "d/m/y" becomes "y-mm-dd", with month and day left-padded to two characters with '0' |
| DateHelpers.IsoTextOfFormatted | frontend/src/utils/dateHelpers.ts:8-29 | a date written as "DD/MM/YYYY" reads back as the same date written "YYYY-MM-DD" |
| DateHelpers.FormatFechaDDMMYYYY | frontend/src/utils/dateHelpers.ts:26-29 | "" for null and non-empty text for a date |
| DateHelpers.FormatFechaParaBackend | frontend/src/utils/dateHelpers.ts:36-53 | null for nothing or "". Text already shaped `YYYY-MM-DD` is returned unchanged, and a library date always gives a text |
| DateHelpers.ParaBackendIdempotent | frontend/src/utils/dateHelpers.ts:42-52 | a date written for the backend is already `YYYY-MM-DD`-shaped, so passing it through again returns it unchanged |
| DateHelpers.DigitsPadded | frontend/src/utils/dateHelpers.ts:14 | for the widths 2 and 4 used there, a number below 10^width padded to that width is exactly that many digits |
| DateHelpers.FormattedIsValid | frontend/src/utils/dateHelpers.ts:60-69 | every date of years 1900..2100 written as "DD/MM/YYYY" passes the check |
| DateHelpers.ValidIsParsed | frontend/src/utils/dateHelpers.ts:8-19 | every string that passes the check is one `parseFechaDDMMYYYY` reads |
| DateHelpers.NoMonthLengthCheck | frontend/src/utils/dateHelpers.ts:64-68 | there is no per-month day check: "31/02/2020" passes |
| DateHelpers.NaNPartFails | frontend/src/utils/dateHelpers.ts:64-68 | a part that `parseInt` reads as NaN makes the check fail |
| UrlHelpers.NormalizeUrl | frontend/src/utils/urlHelpers.ts:12-48 | an URL with "://" becomes path plus query when it parses and stays as it is when it does not. Any other URL ends up starting with '/' or "http". `buildApiUrl` is this function |
| UrlHelpers.NormalizeRelative | frontend/src/utils/urlHelpers.ts:24-36 | after the host stripping and prefix rewriting, the path starts with '/' unless it starts with "http" |
| UrlHelpers.StripLeavesNoHost | frontend/src/utils/urlHelpers.ts:24-26 | on a single line, removing through the last occurrence of a host leaves no occurrence of it |
| UrlHelpers.StripAbsent | frontend/src/utils/urlHelpers.ts:24-26 | removing a host that does not occur changes nothing |
| UrlHelpers.ReplaceAbsent | frontend/src/utils/urlHelpers.ts:29-31 | rewriting a prefix that does not occur changes nothing |
| UrlHelpers.NormalPathUnchanged | frontend/src/utils/urlHelpers.ts:12-39 | a path starting with '/', naming no backend host and with no doubled `/api/` prefix is left exactly as it is |
| UseSearch.CollapseLeadingSlashes | frontend/src/hooks/useSearch.ts:44 | a leading run of '/' becomes exactly one, and nothing else changes |
| UseSearch.CollapseLeavesOne | frontend/src/hooks/useSearch.ts:44 | after collapsing, an URL that started with '/' starts with exactly one |
| UseSearch.CollapseIdempotent | frontend/src/hooks/useSearch.ts:44 | collapsing twice is collapsing once |
| UseSearch.NormalizePageUrl | frontend/src/hooks/useSearch.ts:39-45 | an "http" URL becomes path plus query, and fails when `new URL` throws; any other URL only has its leading slashes collapsed |
| UseSearch.KeptParamsIff | frontend/src/hooks/useSearch.ts:111-120 | a parameter other than `show_all` is sent exactly when its filter has a non-empty value, except `estado = "todos"`, which is never sent as such |
| UseSearch.TodosBecomesShowAll | frontend/src/hooks/useSearch.ts:114-119 | `estado = "todos"` sends `show_all=true` and never `estado=todos` |
| UseSearch.Pieces | frontend/src/hooks/useSearch.ts:126-127 | each parameter is written as `key=value`, in order |
| UseSearch.BareBaseUrl | frontend/src/hooks/useSearch.ts:122-127 | with no parameter the URL is exactly the base URL, otherwise the base URL, '?' and the query |
| UseSearch.FloorDivIsFloor | frontend/src/hooks/useSearch.ts:97 | the integer page arithmetic is the floor of the exact quotient, whatever the signs |
| UseSearch.TotalPagesExact | frontend/src/hooks/useSearch.ts:67 | for a positive page size, `ceil(totalItems / pageSize)` is the fewest pages of that size holding every item |
| UseSearch.OffsetPageInRange | frontend/src/hooks/useSearch.ts:67-97 | an offset inside the listing lands on a page between 1 and the page count |
| UseSearch.PageRoundTrip | frontend/src/hooks/useSearch.ts:89-127 | the page `goToPage(p)` asks for is the page read back from the URL it builds, for a base URL without a query and filters that need no escaping |
| UseSearch.ParsePiecesOf | frontend/src/hooks/useSearch.ts:126-127 | reading back the written parameters gives the parameters |
| UseSearch.SearchHook.constructor | frontend/src/hooks/useSearch.ts:56-65 | the hook starts loading, with no data, no error, no links, page 1, the base URL and the default filters |
| UseSearch.SearchHook.BuildUrlWithFilters | frontend/src/hooks/useSearch.ts:107-130 | the loop over the filters builds the URL `UrlWithFilters` describes |
| UseSearch.SearchHook.ApplyFilters | frontend/src/hooks/useSearch.ts:132-141 | the filters are kept, their first page is fetched and the page becomes 1 |
| UseSearch.SearchHook.ClearFilters | frontend/src/hooks/useSearch.ts:143-149 | back to the default filters, fetched without a page parameter, and the page becomes 1 |
| UseSearch.SearchHook.GoToNextPage | frontend/src/hooks/useSearch.ts:151-157 | without a next link nothing changes; otherwise the link is fetched and the page goes up by one |
| UseSearch.SearchHook.GoToPrevPage | frontend/src/hooks/useSearch.ts:159-165 | without a previous link nothing changes; otherwise the link is fetched and the page goes down by one |
| UseSearch.SearchHook.GoToPage | frontend/src/hooks/useSearch.ts:167-175 | the current filters are fetched at that page, which becomes the current page |
| UseSearch.SearchHook.SetCurrentUrl | frontend/src/hooks/useSearch.ts:177-180 | the URL is remembered and fetched; the page and filters stay |
| UseSearch.SearchHook.FetchData | frontend/src/hooks/useSearch.ts:69-105 | after the response: the results and count are stored and the links normalised. The page is read from the URL (`page`, else `offset/limit`). A failed request or an unreadable URL sets the error and keeps the old data. A link that fails to normalise sets the error and keeps the page and the previous link; the next link is updated only when it normalised |
| UseSearch.SearchHook.ApplyLinks | frontend/src/hooks/useSearch.ts:83-86 | the next and previous links are stored normalised, or the error is set when normalising one throws. Then the previous link is kept, and the next link holds its new value when it normalised before the previous one threw, else its old value |
| JsText.TrimEmptyIff | frontend/src/pages/dashboard/persons/create/index.tsx:94 | `s.trim()` is empty exactly when every character of `s` is white space |
| JsText.TrimIdempotent | frontend/src/pages/dashboard/persons/create/index.tsx:104-111 | trimming twice is trimming once |
| JsText.TrimAround | frontend/src/pages/dashboard/persons/create/index.tsx:104-107 | `trim` removes exactly the white space around a word |
| JsText.JoinSplit | frontend/src/utils/dateHelpers.ts:11 | joining the pieces of `split` with the separator gives back the string |
| JsText.SplitJoin | frontend/src/utils/dateHelpers.ts:11 | splitting pieces joined by a separator they do not contain gives the pieces back |
| JsText.SplitCount | frontend/src/utils/dateHelpers.ts:11-12 | `split` gives one more piece than there are separators |
| JsText.PadStartSuffix | frontend/src/utils/dateHelpers.ts:14 | `padStart` only adds zeros in front of the text |
| JsNumber.ParseIntOfDigits | frontend/src/utils/dateHelpers.ts:64-66 | `parseInt` of a run of decimal digits is the number they spell |
| JsNumber.NatToStringValue | frontend/src/utils/dateHelpers.ts:64-66 | `String(n)` is a run of digits worth `n` |
| JsNumber.ParseIntPadded | frontend/src/utils/dateHelpers.ts:64-66 | `parseInt` of a zero-padded `String(n)` is `n` |
| JsNumber.DigitsNumberValue | frontend/src/pages/dashboard/departments/departamentoJefe/create/index.tsx:208 | `Number` reads a run of decimal digits as the number they spell |
| JsNumber.WordIsNaN | frontend/src/pages/dashboard/usuarios/create/index.tsx:102 | `Number` of any text that, once trimmed, starts with an ASCII letter other than `I` is NaN |
| PyText.PyIntRejects | backend/facet/departamentos/apis/asignaturaDocente.py:75 | `int()` refuses every blank text, and every text that, once stripped, holds a character other than a digit, `_`, `+` or `-` |
| PyText.UnderscoresDropped | backend/facet/departamentos/apis/asignaturaDocente.py:75 | every non-empty run of decimal digits is a valid `int()` body worth the number its digits spell |
| PyText.PyIntReadsBlanks | backend/facet/departamentos/apis/asignaturaDocente.py:75 | for any white space around any body of digits with single underscores between them, `int()` gives the body's decimal value |
| PyText.PyIntReadsSign | backend/facet/departamentos/apis/asignaturaDocente.py:75 | with a sign before such a body, `int()` gives the negated value for `-` and the value itself for `+` |
| ErrorBody.TextOf | frontend/src/pages/dashboard/departments/departamentoJefe/create/index.tsx:404-405 | a field's text is only reported when it is a non-empty text stored under that key |
| ErrorBody.TextOfAbsent | frontend/src/pages/dashboard/departments/departamentoJefe/create/index.tsx:404 | an object without the key has no text under it |
| ErrorBody.TextOfFirst | frontend/src/pages/dashboard/departments/departamentoJefe/create/index.tsx:404-405 | the text under a key is that of the first field with the key, when it is a non-empty text, and none otherwise |
| ResetPassword.HasDigit | frontend/src/pages/login/reset-password.tsx:70 | true exactly when some character is an ASCII digit |
| ResetPassword.HasLetter | frontend/src/pages/login/reset-password.tsx:71 | true exactly when some character is an ASCII letter |
| ResetPassword.ValidatePassword | frontend/src/pages/login/reset-password.tsx:67-72 | valid exactly when at least 8 characters long, with a digit and an ASCII letter |
| ResetPassword.PasswordStrength | frontend/src/pages/login/reset-password.tsx:127-141 | "" exactly for an empty password; green exactly when valid; yellow exactly when invalid with length at least 6; red otherwise |
| ResetPassword.ValidStaysValid | frontend/src/pages/login/reset-password.tsx:67-72 | adding characters never makes a valid password invalid |
| ResetPassword.OneKindInvalid | frontend/src/pages/login/reset-password.tsx:67-72 | a password of letters only or digits only is never valid nor green |
| ResetPassword.SubmitGuard | frontend/src/pages/login/reset-password.tsx:77-96 | the submission passes exactly when the passwords match and the password is valid; the mismatch is reported first |
| ResetPassword.ButtonMatchesGuards | frontend/src/pages/login/reset-password.tsx:263 | while nothing loads, the button is enabled exactly when the guards let the submission through |
| ResetPassword.LinkOf | frontend/src/pages/login/reset-password.tsx:20-65 | with five or more path segments uid and token are segments 3 and 4, otherwise the query parameters. The link is invalid when either is missing or empty |
| ResetPassword.PathLinkRead | frontend/src/pages/login/reset-password.tsx:23-43 | `/login/reset-password/<uid>/<token>/` yields that uid and token |
| ResetPassword.QueryLinkRead | frontend/src/pages/login/reset-password.tsx:46-63 | on a shorter path, `?uid=<uid>&token=<token>` yields that uid and token |
| ResetPassword.ResetPasswordPage.constructor | frontend/src/pages/login/reset-password.tsx:12-18 | the page starts with empty passwords, uid and token, and nothing loading |
| ResetPassword.ResetPasswordPage.LoadLink | frontend/src/pages/login/reset-password.tsx:20-65 | the effect keeps the link's uid and token, or reports the link invalid and keeps the old ones |
| ResetPassword.ResetPasswordPage.Submit | frontend/src/pages/login/reset-password.tsx:74-125 | a failing guard sends nothing; otherwise the confirmation request is sent with the new password twice, and loading ends |
| ResetPassword.EnabledButtonSends | frontend/src/pages/login/reset-password.tsx:263 | a click on the enabled button always reaches the request |
| ChangePassword.Guard | frontend/src/pages/dashboard/change-password/index.tsx:35-63 | the checks run in order: a missing field, then fewer than 8 characters, then a mismatch. The first failure wins, and nothing is rejected when all pass |
| ChangePassword.LengthBeforeMatch | frontend/src/pages/dashboard/change-password/index.tsx:45-63 | a short new password is reported as too short even when the confirmation differs |
| ChangePassword.ErrorMessage | frontend/src/pages/dashboard/change-password/index.tsx:97-105 | the server's `error` text wins; else 400 gives "current incorrect", 409 "reused", anything else the generic message |
| ChangePassword.ServerTextWins | frontend/src/pages/dashboard/change-password/index.tsx:97-99 | with a server text the status does not matter |
| ChangePassword.ChangePasswordPage.constructor | frontend/src/pages/dashboard/change-password/index.tsx:12-19 | the page starts with empty fields and e-mail, nothing loading, over the given session |
| ChangePassword.ChangePasswordPage.Load | frontend/src/pages/dashboard/change-password/index.tsx:21-29 | the signed-in e-mail is loaded, or the page goes back to the login without one |
| ChangePassword.ChangePasswordPage.Submit | frontend/src/pages/dashboard/change-password/index.tsx:31-116 | a failing guard sends nothing; otherwise the request is sent and the reply mapped to a message. A confirmed 200 clears the session keys |
| UsuariosCreate.WithValue | frontend/src/pages/dashboard/usuarios/create/index.tsx:122-126 | the edited field takes the typed value and every other field keeps its value |
| UsuariosCreate.ErrorOfField | frontend/src/pages/dashboard/usuarios/create/index.tsx:67-119 | the error dictionary has an entry for a field exactly when that field breaks its rule, holding that one error |
| UsuariosCreate.NoErrorsIff | frontend/src/pages/dashboard/usuarios/create/index.tsx:118-119 | `validateForm` returns true exactly when the form meets every rule |
| UsuariosCreate.ConfirmErrorIndependent | frontend/src/pages/dashboard/usuarios/create/index.tsx:78-87 | the confirmation error is set exactly when the passwords differ, independently of the password's own error |
| UsuariosCreate.PlainAddressAccepted | frontend/src/pages/dashboard/usuarios/create/index.tsx:73 | `local@domain.tld` without white space passes `\S+@\S+\.\S+` |
| UsuariosCreate.NoAtRejected | frontend/src/pages/dashboard/usuarios/create/index.tsx:73 | no address without '@' passes |
| UsuariosCreate.DigitsAreAccepted | frontend/src/pages/dashboard/usuarios/create/index.tsx:100-111 | a legajo or documento typed as decimal digits passes its rule |
| UsuariosCreate.Payload | frontend/src/pages/dashboard/usuarios/create/index.tsx:147-156 | the account is created active with the typed e-mail and password, and no role when none was chosen |
| UsuariosCreate.DigitsSentAsValues | frontend/src/pages/dashboard/usuarios/create/index.tsx:152-153 | a legajo and documento typed as digits are sent as their values |
| UsuariosCreate.ServerMessage | frontend/src/pages/dashboard/usuarios/create/index.tsx:171-185 | a refusal's message by priority email, legajo, documento, rol, else all values joined; no object gives the generic message |
| UsuariosCreate.EmailErrorWins | frontend/src/pages/dashboard/usuarios/create/index.tsx:175-176 | an error on the e-mail hides every other error |
| UsuariosCreate.CreateUserForm.constructor | frontend/src/pages/dashboard/usuarios/create/index.tsx:35-45 | the form starts with every field empty and no error |
| UsuariosCreate.CreateUserForm.ValidateForm | frontend/src/pages/dashboard/usuarios/create/index.tsx:67-120 | fills the error dictionary field by field to exactly the form's errors, and returns true exactly when the form meets every rule |
| UsuariosCreate.CreateUserForm.HandleInputChange | frontend/src/pages/dashboard/usuarios/create/index.tsx:122-135 | stores the value and blanks only the edited field's error when it had one |
| UsuariosCreate.CreateUserForm.Submit | frontend/src/pages/dashboard/usuarios/create/index.tsx:137-195 | an invalid form sends nothing; a valid one sends the payload and reports creation or the server's message |
| DepartamentoJefeCreate.StripApi | frontend/src/pages/dashboard/departments/departamentoJefe/create/index.tsx:150 | a leading "/api" is dropped, and anything else is kept |
| DepartamentoJefeCreate.NormalizeUrl | frontend/src/pages/dashboard/departments/departamentoJefe/create/index.tsx:143-158 | the page's normalisation is the hook's, followed by removing a leading "/api" |
| DepartamentoJefeCreate.ApiPrefixDropped | frontend/src/pages/dashboard/departments/departamentoJefe/create/index.tsx:154-156 | a path under "/api" loses that prefix and is otherwise kept |
| DepartamentoJefeCreate.OtherPathCollapsed | frontend/src/pages/dashboard/departments/departamentoJefe/create/index.tsx:154-156 | any other relative path only has its leading slashes collapsed |
| DepartamentoJefeCreate.PageFromNumber | frontend/src/pages/dashboard/departments/departamentoJefe/create/index.tsx:208 | NaN stays NaN and an infinite offset stays infinite |
| DepartamentoJefeCreate.OffsetPage | frontend/src/pages/dashboard/departments/departamentoJefe/create/index.tsx:204-208 | a whole offset `k` lands on page `k / pageSize + 1` |
| DepartamentoJefeCreate.NoOffsetFirstPage | frontend/src/pages/dashboard/departments/departamentoJefe/create/index.tsx:207-208 | with no offset or an empty one the page is the first |
| DepartamentoJefeCreate.LinkOffsetPage | frontend/src/pages/dashboard/departments/departamentoJefe/create/index.tsx:204-208 | the offset `(p - 1) * pageSize` reads back as page `p` |
| DepartamentoJefeCreate.CurrentPageOf | frontend/src/pages/dashboard/departments/departamentoJefe/create/index.tsx:203-208 | a page is computed unless `new URL` throws on an "http" URL; a relative URL is read against the page's own origin |
| DepartamentoJefeCreate.CurrentPageReadsOffset | frontend/src/pages/dashboard/departments/departamentoJefe/create/index.tsx:203-208 | loading a URL whose offset is the whole number `k`, relative or absolute, sets page `k / pageSize + 1` |
| DepartamentoJefeCreate.CurrentPageWithoutOffset | frontend/src/pages/dashboard/departments/departamentoJefe/create/index.tsx:203-208 | loading a URL with no offset or an empty one, relative or absolute, sets the first page |
| DepartamentoJefeCreate.LabelInjective | frontend/src/pages/dashboard/departments/departamentoJefe/create/index.tsx:322-350 | no two fields share a label |
| DepartamentoJefeCreate.MissingInOrder | frontend/src/pages/dashboard/departments/departamentoJefe/create/index.tsx:322-350 | the missing fields are listed in the order Resolución, Jefe, Departamento, Fecha de Inicio, Fecha de Fin, Estado |
| DepartamentoJefeCreate.MissingOfIff | frontend/src/pages/dashboard/departments/departamentoJefe/create/index.tsx:322-350 | a label is listed exactly when its field is checked and missing |
| DepartamentoJefeCreate.NothingMissingIff | frontend/src/pages/dashboard/departments/departamentoJefe/create/index.tsx:322-350 | nothing is listed exactly when every required field is filled in |
| DepartamentoJefeCreate.MissingMessageLines | frontend/src/pages/dashboard/departments/departamentoJefe/create/index.tsx:341-350 | read line by line, the message is the heading, a blank line and exactly the missing fields |
| DepartamentoJefeCreate.DateError | frontend/src/pages/dashboard/departments/departamentoJefe/create/index.tsx:352-376 | a start at or after the end is refused first, then an end before today, and a term passing both is accepted |
| DepartamentoJefeCreate.EndingTodayAccepted | frontend/src/pages/dashboard/departments/departamentoJefe/create/index.tsx:365-376 | an end date equal to today is accepted |
| DepartamentoJefeCreate.SameDayRefused | frontend/src/pages/dashboard/departments/departamentoJefe/create/index.tsx:356-363 | a start equal to the end is refused, whatever today is |
| DepartamentoJefeCreate.InvalidDatesPass | frontend/src/pages/dashboard/departments/departamentoJefe/create/index.tsx:352-376 | a date the library cannot read passes both checks |
| DepartamentoJefeCreate.BackendDate | frontend/src/pages/dashboard/departments/departamentoJefe/create/index.tsx:382-383 | a library date is sent as `YYYY-MM-DD` |
| DepartamentoJefeCreate.EstadoValue | frontend/src/pages/dashboard/departments/departamentoJefe/create/index.tsx:385 | estado "1" is sent as 1 and anything else as 0 |
| DepartamentoJefeCreate.FieldLines | frontend/src/pages/dashboard/departments/departamentoJefe/create/index.tsx:408-415 | one line per field, in the object's order |
| DepartamentoJefeCreate.ErrorMessage | frontend/src/pages/dashboard/departments/departamentoJefe/create/index.tsx:399-418 | the `detail` text wins. Otherwise the message is the heading and one "campo: errores" line per field. A reply without an object keeps the default message |
| DepartamentoJefeCreate.DetailWins | frontend/src/pages/dashboard/departments/departamentoJefe/create/index.tsx:404-405 | a `detail` text is shown on its own |
| DepartamentoJefeCreate.FieldLinesRead | frontend/src/pages/dashboard/departments/departamentoJefe/create/index.tsx:406-417 | without `detail`, the message read line by line is the heading, a blank line and one line per field |
| DepartamentoJefeCreate.SentOf | frontend/src/pages/dashboard/departments/departamentoJefe/create/index.tsx:378-394 | a complete form whose dates pass sends the payload built from it |
| DepartamentoJefeCreate.CreateJefeDepartamentoPage.constructor | frontend/src/pages/dashboard/departments/departamentoJefe/create/index.tsx:76-90 | the page starts with nothing picked, empty texts and the dialog closed |
| DepartamentoJefeCreate.CreateJefeDepartamentoPage.CamposFaltantes | frontend/src/pages/dashboard/departments/departamentoJefe/create/index.tsx:322-350 | the pushes build exactly the ordered list of missing fields |
| DepartamentoJefeCreate.CreateJefeDepartamentoPage.CrearNuevoJefeDepartamento | frontend/src/pages/dashboard/departments/departamentoJefe/create/index.tsx:319-419 | missing fields give one error listing them and send nothing; otherwise the dates decide, and the reply gives the message |
| DepartamentoJefeCreate.CreateJefeDepartamentoPage.OpenModal | frontend/src/pages/dashboard/departments/departamentoJefe/create/index.tsx:160-169 | the dialog opens with the title and message, and the form is unchanged |
| DepartmentsCreate.CapitalizeFirstLetter | frontend/src/pages/dashboard/departments/create/index.tsx:54-56 | only the first character is upper-cased; the rest is unchanged |
| DepartmentsCreate.CapitalizeIdempotent | frontend/src/pages/dashboard/departments/create/index.tsx:196 | capitalising on every keystroke is stable: twice is once |
| DepartmentsCreate.ValidarEmail | frontend/src/pages/dashboard/departments/create/index.tsx:78-82 | "" passes; a non-empty e-mail passes exactly when it has the shape `^[^\s@]+@[^\s@]+\.[^\s@]+$` |
| DepartmentsCreate.PlainAddressAccepted | frontend/src/pages/dashboard/departments/create/index.tsx:80-81 | a name, domain and suffix without white space or '@' make an accepted address |
| DepartmentsCreate.SpaceRejected | frontend/src/pages/dashboard/departments/create/index.tsx:80-81 | white space anywhere makes a non-empty e-mail invalid |
| DepartmentsCreate.SecondAtRejected | frontend/src/pages/dashboard/departments/create/index.tsx:80-81 | a second '@' makes the e-mail invalid |
| DepartmentsCreate.StricterThanUserForm | frontend/src/pages/dashboard/departments/create/index.tsx:80-81 | every non-empty address this form accepts is accepted by the user form's looser pattern |
| DepartmentsCreate.EmailCheck | frontend/src/pages/dashboard/departments/create/index.tsx:86-102 | the department's e-mail is checked before the head's, and the first invalid one decides |
| DepartmentsCreate.EmptyEmailsPass | frontend/src/pages/dashboard/departments/create/index.tsx:79 | two empty e-mails never block the form |
| DepartmentsCreate.NullIfEmpty | frontend/src/pages/dashboard/departments/create/index.tsx:109-110 | an empty e-mail is sent as null and any other as typed |
| DepartmentsCreate.FieldName | frontend/src/pages/dashboard/departments/create/index.tsx:144-150 | names other than the four mapped ones are shown as they are |
| DepartmentsCreate.EntryLines | frontend/src/pages/dashboard/departments/create/index.tsx:143-153 | one "Campo: error" line per error of a field |
| DepartmentsCreate.LinesOfIff | frontend/src/pages/dashboard/departments/create/index.tsx:141-154 | a field gives the line "Campo: error" exactly for each error of its list, and nothing for a single text |
| DepartmentsCreate.ShownFromField | frontend/src/pages/dashboard/departments/create/index.tsx:139-155 | each line of each field is shown |
| DepartmentsCreate.FieldOfShown | frontend/src/pages/dashboard/departments/create/index.tsx:139-155 | each line shown comes from some field |
| DepartmentsCreate.FieldErrorLinesIff | frontend/src/pages/dashboard/departments/create/index.tsx:139-155 | a line is shown exactly when it is one of some field's lines |
| DepartmentsCreate.NoFieldLinesIff | frontend/src/pages/dashboard/departments/create/index.tsx:139-159 | no line is produced exactly when no field holds a non-empty list of errors |
| DepartmentsCreate.ErrorMessage | frontend/src/pages/dashboard/departments/create/index.tsx:129-160 | no data or empty text gives the default message, and a non-empty text is shown as it is. For an object, a non-empty `detail` text is the message; without one, a non-empty `message` text is |
| DepartmentsCreate.DetailBeforeMessage | frontend/src/pages/dashboard/departments/create/index.tsx:133-134 | for any object, a non-empty `detail` text is the message, whatever else the object holds, `message` included |
| DepartmentsCreate.MessageBeforeFields | frontend/src/pages/dashboard/departments/create/index.tsx:135-136 | for any object without `detail`, a non-empty `message` text is the message, whatever fields follow |
| DepartmentsCreate.FieldLinesShown | frontend/src/pages/dashboard/departments/create/index.tsx:137-158 | without `detail` or `message`, the message read line by line is exactly the field lines |
| DepartmentsCreate.JsonFallback | frontend/src/pages/dashboard/departments/create/index.tsx:156-159 | without `detail`, `message` or any listed error, the object is shown as JSON |
| DepartmentsCreate.FormatFieldErrors | frontend/src/pages/dashboard/departments/create/index.tsx:139-155 | the nested loops push exactly the field lines |
| DepartmentsCreate.CreateDepartmentPage.constructor | frontend/src/pages/dashboard/departments/create/index.tsx:43-51 | the page starts with every field empty and the dialog closed |
| DepartmentsCreate.CreateDepartmentPage.SetNombre | frontend/src/pages/dashboard/departments/create/index.tsx:195-197 | the name becomes the typed value capitalised and nothing else changes |
| DepartmentsCreate.CreateDepartmentPage.CrearNuevoDepartamento | frontend/src/pages/dashboard/departments/create/index.tsx:84-165 | an invalid e-mail stops the submission with its message; otherwise the payload is sent and the reply decides the message |
| DepartmentsCreate.CreateDepartmentPage.OpenModal | frontend/src/pages/dashboard/departments/create/index.tsx:58-67 | the dialog shows the title and message, and the form is unchanged |
| PersonsCreate.CapitalizeFirstLetter | frontend/src/pages/dashboard/persons/create/index.tsx:52-54 | the first character is upper-cased and the rest lower-cased |
| PersonsCreate.CapitalizedRestIsLower | frontend/src/pages/dashboard/persons/create/index.tsx:52-54 | no upper-case letter remains after the first character |
| PersonsCreate.CapitalizeIdempotent | frontend/src/pages/dashboard/persons/create/index.tsx:52-54 | capitalising twice is capitalising once |
| PersonsCreate.TrimmedOrNull | frontend/src/pages/dashboard/persons/create/index.tsx:106-111 | a blank value is sent as null, any other trimmed |
| PersonsCreate.InternoValue | frontend/src/pages/dashboard/persons/create/index.tsx:110 | a blank interno is null, any other is `parseInt` of the trimmed text |
| PersonsCreate.InternoDigits | frontend/src/pages/dashboard/persons/create/index.tsx:110 | digits with spaces around are sent as their value |
| PersonsCreate.TituloValue | frontend/src/pages/dashboard/persons/create/index.tsx:112 | no title, or 0, is sent as null |
| PersonsCreate.BirthDate | frontend/src/pages/dashboard/persons/create/index.tsx:113 | no birth date is null and a date is sent as `YYYY-MM-DD` |
| PersonsCreate.PayloadOf | frontend/src/pages/dashboard/persons/create/index.tsx:103-114 | nombre, apellido and dni are sent trimmed and non-empty |
| PersonsCreate.CrearNuevaPersona | frontend/src/pages/dashboard/persons/create/index.tsx:92-127 | nothing is sent exactly when nombre, apellido or dni is blank, with the required-fields message. Otherwise the payload is sent and the reply decides the message |
| PersonsCreate.BlankNameRejected | frontend/src/pages/dashboard/persons/create/index.tsx:94-101 | a name of spaces only is as good as none: nothing is sent |
| PersonsCreate.SpacesAroundDropped | frontend/src/pages/dashboard/persons/create/index.tsx:103-105 | spaces typed around the name never reach the backend |
| PersonsCreate.SameTrimSamePayload | frontend/src/pages/dashboard/persons/create/index.tsx:103-114 | forms whose names trim alike are submitted alike |

## Left out

**Infrastructure.**
- The Celery worker, Redis, `bind`, `task_acks_late` and concurrency are not modelled. A dispatch is a sequential run of attempts over a queue, and the 60-second countdown is a timestamp offset.
- The SMTP transport is an outcome (`Delivers` or `Raises`) supplied per attempt. The `DEFAULT_FROM_EMAIL` setting is a constant.
- The Django ORM, serializers and DRF filters are left out. Tables are sequences of records and `now()` is an integer parameter.
- The two `now()` calls of a task run are taken as one instant.
- The scan's and the cleanup's generic `except` branches are not modelled; their bodies raise nothing in the model.
- That the cleanup is not in the beat schedule, and that nothing enqueues the subject-teacher task, is configuration and is not modelled (backend/facet/administracion/celery.py:45-50). The subject-teacher task is modelled by the same `Attempt` as the department-head task.

**Backend.**
- The `verificar_documentaciones` method nested in the notification viewset is dead code and is not modelled.
- Password hashing is abstracted: the stored password is the raw text `set_password` received. JWT, recaptcha and `busquedaEmail` are left out.
- The `icontains` text filters of the user listing are left out, and so are its offset pagination and the other viewsets. usuarios/models.py is not part of this model.
- DRF's `page` parameter is read with `int()`; the keyword `last` asks for the last page.
- PyText.PyInt: only ASCII digits are read. Python's `int()` also accepts the other Unicode decimal digits.
- UsuariosApi.IsActiveFilter: the letter case is mapped for ASCII letters only.
- JefeDepartamentoApi.Item: the listed record is shortened. It leaves out `observaciones`, `resolucion`, the term's own `jefe.id` and `jefe.observaciones`, and the person's `dni`, `legajo` and `telefono`. The department is its name, not the `{id, nombre}` object or None of the source.

**Front end.**
- Strings are sequences of characters, not UTF-16 code units. Case mapping covers ASCII letters only.
- Doubles are modelled as unbounded integers and exact reals, with no rounding.
- dayjs parsing and `new URL` are parameters of the operations that use them. URL fragments are not modelled, and neither is `URLSearchParams` percent-encoding: UseSearch.PageRoundTrip assumes names and values that need no escaping.
- Dates the department-head form compares are calendar dates. The time of day of a picked date and the browser's time zone are not modelled.
- React rendering, axios, Swal dialogs, router navigation and the pickers' own fetches are left out. sessionStorage is a map.
- The page size of the search hook is a parameter.
- DepartmentsCreate.ErrorMessage: `JSON.stringify` is a parameter. A field whose value is neither a list nor a text is not modelled, and a list-valued `detail` or `message` is treated as a field, not shown as the message.
- DepartamentoJefeCreate.ErrorMessage: a list-valued `detail` is treated as a field, not as a text.
- UsuariosCreate.CreateUserForm: the user form has no dni field, and the roles list it loads is not modelled.
- PersonsCreate.InternoValue: a NaN interno is modelled as the null that JSON carries it as. `estado` is sent as typed.
