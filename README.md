# Gym membership rules, modelled in Dafny

This project models the business-rule layer of a small gym management
application ("gimnasio"). The layer covers the following:

- registering clients, identified by their *cédula*;
- selling memberships as payments that run for a whole number of 30-day
  months;
- the door check that logs an entry or an exit only for a client whose
  membership is in force;
- the figures a dashboard shows.

The application keeps three SQLite tables: `clientes`, `pagos` and `accesos`.
Here they are three sequences held by one `Store.Database` object, in row
order, together with the two `AUTOINCREMENT` counters. Every repository
shares that object, as every repository in the application shares one
connection. Each SQL statement becomes its set/sequence meaning:

- `WHERE` becomes `Seqs.Filter`;
- `COUNT(*)` becomes `Seqs.Count`;
- `ORDER BY` becomes `Seqs.SortBy`, a stable sort under a total preorder;
- `LIMIT` becomes `Seqs.Take`;
- `JOIN` becomes a primary-key lookup.

Statements that change a table become methods of the repository classes, and
their `modifies` clauses name the table. The clock is always a parameter:

- a date is a day number;
- a timestamp is a day, an hour and the time elapsed within that hour.

Modules, one per source file of the core:

- `Validators`: `require` and `require_numeric`, and the validation errors
  with their messages.
- `PaymentModel`: the payment record, the 30-day-month expiry date,
  `vence_en`, `esta_activo` and `renovar`.
- `Records`: the client and access records, and `full_name`.
- `Store`: the tables, the key lookup on `clientes`, and the table
  constraint.
- `PaymentsRepo`, `ClientsRepo` and `AccessesRepo`: the three repositories.
- `ClientsService`, `PaymentsService`, `AccessesService` and
  `ReportsService`: the four services.
- Shared pieces:
  - `Wrappers`: `Option`, `Outcome` and `Result`;
  - `Text`: Python's `strip`, `isdigit` and `lower`, and `LIKE '%…%'`;
  - `Seqs`: the relational operations listed above;
  - `Clock`: weekdays and the start of the week.

A Python exception is modelled as the `Fail`/`Err` case of an `Outcome` or
`Result`. It carries the `ValidationError` constructor whose message the
exception would carry.

## Model

| member | source | states |
|---|---|---|
| Validators.Lookup | src/gimnasio/services/clients_service.py:19-21 | `data.get(key)` is missing exactly when the key is absent; otherwise it is the stored string |
| Validators.Require | src/gimnasio/utils/validators.py:10-12 | fails, with the "obligatorio" error naming the field, iff the value is `None` or a string that strips to nothing; any non-string value passes unexamined |
| Validators.RequireNumeric | src/gimnasio/utils/validators.py:15-18 | a `require` failure is reported first and unchanged; once `require` passes, success iff every character of `str(value)` is a digit; the only errors are "obligatorio" and "solo números" |
| Validators.RequireNumericExactly | src/gimnasio/utils/validators.py:15-18 | on strings and `None`: passes iff the value is a non-empty all-digit string; a rejection is the "obligatorio" error iff the value is missing or blank |
| Validators.LeadingSpaceRejected | src/gimnasio/utils/validators.py:17-18 | nothing is stripped before the digit check: `" 123"` gets the "solo números" error |
| Records.FullName | src/gimnasio/domain/models/client.py:18-20 | for every name and surname: "nombre apellido" with its surrounding whitespace cut off (the `IsStripOf` relation, which has one solution); empty iff "nombre apellido" is all whitespace; exactly "nombre apellido" when the name does not start, and the surname does not end, with whitespace |
| Text.Strip | src/gimnasio/services/clients_service.py:24-30 | the input is whitespace, then the result, then whitespace, and the result neither starts nor ends with whitespace; empty iff the input is blank |
| Text.StripOfUnique | src/gimnasio/services/clients_service.py:24-30 | at most one text is the input with its surrounding whitespace cut off, so the contract of `Strip` determines its result |
| Text.StripOfSlice | src/gimnasio/services/clients_service.py:24-30 | a non-empty stripped text is exactly the part of the input between its leading and its trailing whitespace |
| Text.StripOfEmpty | src/gimnasio/services/clients_service.py:24-30 | a stripped text is empty iff the input is blank |
| Text.DigitsAreTrimmed | src/gimnasio/services/clients_service.py:19-24 | an all-digit cédula is not blank and stripping leaves it unchanged |
| Text.ContainsAt | src/gimnasio/infrastructure/repositories/clients_repo.py:83-87 | the substring test behind `LIKE '%value%'` holds iff the pattern occurs at some position of the field |
| Seqs.Take | src/gimnasio/infrastructure/repositories/accesses_repo.py:35 | `LIMIT n` keeps a prefix: `min(n, rows)` rows for `n >= 0`, every row for a negative `n` |
| Clock.WeekStart | src/gimnasio/infrastructure/repositories/accesses_repo.py:89 | `date('now','weekday 0','-7 days')` is a Sunday strictly before today, at most 7 days back, with no Sunday in between |
| PaymentModel.Vencimiento | src/gimnasio/services/payments_service.py:34-35 | the expiry date is exactly `30 · meses` days after the payment date |
| PaymentModel.VenceEn | src/gimnasio/domain/models/payment.py:19-21 | reference date (today when none is given) plus the result is the expiry date; 0 on the expiry day, negative exactly once it is past |
| PaymentModel.EstaActivo | src/gimnasio/domain/models/payment.py:23-25 | valid iff flagged active and `vence_en(today) >= 0`; never valid when inactive; still valid on the expiry day |
| PaymentModel.Renovar | src/gimnasio/domain/models/payment.py:27-39 | a new unsaved (`id` none), active payment for the same client, amount, duration and method, paid today, expiring `30 · duracion` days later |
| PaymentModel.RenovarVigente | src/gimnasio/domain/models/payment.py:19-39 | for a duration of at least one month, the renewal is valid on the day it is made and `vence_en` that day is `30 · duracion` |
| PaymentModel.RenovarIgnoresHistory | src/gimnasio/domain/models/payment.py:27-39 | the renewal does not depend on the old id, dates or `activo` flag of the renewed payment (the original is a value and is never changed) |
| Store.FindClient | src/gimnasio/infrastructure/repositories/clients_repo.py:63-67 | none iff no row has the key; otherwise a row of the table with that key, and under the primary-key constraint the only one |
| Store.Database.constructor | src/gimnasio/infrastructure/database.py:24-67 | the three tables start empty, satisfy the primary-key constraint, and both id counters start at 1 |
| PaymentsRepo.Deactivated | src/gimnasio/infrastructure/repositories/payments_repo.py:16-19 | `UPDATE pagos SET activo = 0 WHERE cedula_cliente = ?`: same length; no row of the client stays active; only `activo` can change; other clients' rows are untouched |
| PaymentsRepo.PaymentsRepository.Save | src/gimnasio/infrastructure/repositories/payments_repo.py:14-37 | returns true; the table becomes the client-deactivated table plus the new row under the next id, so the row count grows by exactly one |
| PaymentsRepo.SaveKeepsAtMostOneActive | src/gimnasio/infrastructure/repositories/payments_repo.py:14-37 | when no client had two active rows before a save, none has afterwards |
| PaymentsRepo.SaveLeavesOneActive | src/gimnasio/infrastructure/repositories/payments_repo.py:14-46 | after saving an active payment its client has exactly one active row, the new last one, and `active_for_client` returns it, whatever the table held before |
| PaymentsRepo.ActiveForAfterInactive | src/gimnasio/infrastructure/repositories/payments_repo.py:39-46 | with no active row of the client before it, an active row appended last is the one the lookup finds |
| PaymentsRepo.ActiveFor | src/gimnasio/infrastructure/repositories/payments_repo.py:39-46 | none iff the client has no active row; otherwise an active row of that client; with at most one active row per client, that row |
| PaymentsRepo.VigenteMeaning | src/gimnasio/services/clients_service.py:59-60 | on a table built through `save`, "active payment found and `esta_activo`" holds iff some active row of the client is valid today |
| PaymentsRepo.VigenteAfterSave | src/gimnasio/infrastructure/repositories/payments_repo.py:14-46 | right after saving an active payment, the client's membership is in force exactly while today is not past the new expiry date |
| PaymentsRepo.ForClient | src/gimnasio/infrastructure/repositories/payments_repo.py:48-55 | exactly the client's payments (as a multiset), newest `fecha_pago` first |
| PaymentsRepo.AllPayments | src/gimnasio/infrastructure/repositories/payments_repo.py:57-60 | every payment (as a multiset), newest `fecha_pago` first |
| PaymentsRepo.JoinClients | src/gimnasio/infrastructure/repositories/payments_repo.py:66-67 | a joined row for each payment whose client exists, carrying that client and the payment's expiry date, and no other; as many rows as payments with an existing client |
| PaymentsRepo.JoinClientsMultiplicity | src/gimnasio/infrastructure/repositories/payments_repo.py:66-67 | each joined row occurs exactly as often as there are payments yielding it: one row per payment |
| PaymentsRepo.Overdue | src/gimnasio/infrastructure/repositories/payments_repo.py:62-73 | exactly the existing clients' active payments expiring before today, soonest expiry first |
| PaymentsRepo.OverdueMultiplicity | src/gimnasio/infrastructure/repositories/payments_repo.py:62-73 | each overdue row occurs exactly once per active, expired payment of an existing client that yields it |
| PaymentsRepo.PaymentsRepository.constructor | src/gimnasio/infrastructure/repositories/payments_repo.py:11-12 | the repository works on the given database |
| ClientsRepo.Stored | src/gimnasio/infrastructure/repositories/clients_repo.py:34 | the stored row always has a registration date: the client's own, or today when it has none |
| ClientsRepo.ClientsRepository.Add | src/gimnasio/infrastructure/repositories/clients_repo.py:15-39 | true iff the key was free; then the client is appended with its registration date defaulted and `get` returns it; otherwise the table is unchanged; the key stays unique |
| ClientsRepo.Overwrite | src/gimnasio/infrastructure/repositories/clients_repo.py:45-48 | same length; the matching row takes the new nombre through foto_path but keeps its cédula and registration date; every other row is untouched |
| ClientsRepo.ClientsRepository.Update | src/gimnasio/infrastructure/repositories/clients_repo.py:41-61 | true iff the key exists; the table becomes the overwritten table; the key stays unique |
| ClientsRepo.Without | src/gimnasio/infrastructure/repositories/clients_repo.py:71 | keeps exactly the rows with another key; the key is gone afterwards; uniqueness is preserved |
| ClientsRepo.ClientsRepository.Remove | src/gimnasio/infrastructure/repositories/clients_repo.py:69-72 | true iff the row existed; only that row is deleted and `get` then yields none |
| ClientsRepo.ClientsRepository.constructor | src/gimnasio/infrastructure/repositories/clients_repo.py:12-13 | the repository works on the given database |
| ClientsRepo.Listing | src/gimnasio/infrastructure/repositories/clients_repo.py:74-78 | every client exactly once (same multiset), sorted by `(nombre, apellido)` under the `BINARY` collation |
| ClientsRepo.Classify | src/gimnasio/infrastructure/repositories/clients_repo.py:102-106 | "Sin pago" iff no active payment joined; "Activo" iff its expiry is today or later; "Vencido" iff it is before today |
| ClientsRepo.FiltersFromMeaning | src/gimnasio/infrastructure/repositories/clients_repo.py:83-96 | the conditions built for a list of fields hold iff every non-empty criterion among those fields occurs, case-insensitively, in its column |
| ClientsRepo.ActiveFiltersMeaning | src/gimnasio/infrastructure/repositories/clients_repo.py:83-96 | the `AND`-joined conditions hold iff every non-empty criterion among cédula, nombre, apellido and teléfono matches; other keys are ignored |
| ClientsRepo.CollectFilters | src/gimnasio/infrastructure/repositories/clients_repo.py:81-87 | the loop over the four fields builds, in field order, one condition per non-empty criterion, and they mean exactly the criteria |
| ClientsRepo.RowsFor | src/gimnasio/infrastructure/repositories/clients_repo.py:102-108 | the rows the `LEFT JOIN` gives one client: one per active payment, labelled by its expiry, or a single "Sin pago" row with no date when there is none; their number is the count of active payments, or 1 when there is none |
| ClientsRepo.RowsForMultiplicity | src/gimnasio/infrastructure/repositories/clients_repo.py:102-108 | counted with repetition, a client's rows are one per active payment with that expiry date, or exactly one NULL row when it has no active payment, and nothing for other clients |
| ClientsRepo.PaymentRowsMultiplicity | src/gimnasio/infrastructure/repositories/clients_repo.py:102-108 | the dated rows of a client occur once per active payment with that expiry date |
| ClientsRepo.LeftJoin | src/gimnasio/infrastructure/repositories/clients_repo.py:107-108 | every client of the table appears, each with exactly its `LEFT JOIN` rows |
| ClientsRepo.LeftJoinMultiplicity | src/gimnasio/infrastructure/repositories/clients_repo.py:107-108 | counted with repetition, the joined table holds each client's rows as often as the client is listed, no more and no fewer |
| ClientsRepo.SearchRows | src/gimnasio/infrastructure/repositories/clients_repo.py:80-125 | a row is returned iff its client exists, matches every filter, its label passes the estado filter, and it is a join row; each returned row occurs as often as the `LEFT JOIN` produces it; rows are sorted by `(nombre, apellido)` |
| ClientsRepo.ClientsRepository.Search | src/gimnasio/infrastructure/repositories/clients_repo.py:80-125 | the result is the search over the criteria's conditions: a row iff its client exists, meets the criteria, and passes "Activos" (only Activo) / "Vencidos" (Vencido or Sin pago) / anything else (all); sorted |
| ClientsRepo.SearchLabelAgreesWithValidity | src/gimnasio/infrastructure/repositories/clients_repo.py:102-108 | on a table built through `save`, each client gets exactly one search row, labelled "Activo" iff its active payment is `esta_activo` |
| ClientsRepo.AtMostOneActiveRow | src/gimnasio/infrastructure/repositories/clients_repo.py:108 | with at most one active payment per client, the join finds at most one payment for a client |
| ClientsRepo.NoActiveRows | src/gimnasio/infrastructure/repositories/clients_repo.py:108 | a client with no active payment joins no payment row |
| ClientsRepo.ExpiringWithin | src/gimnasio/infrastructure/repositories/clients_repo.py:127-148 | exactly the existing clients' active payments expiring within `[today, today + dias]`, soonest first |
| ClientsRepo.ExpiringWithinMultiplicity | src/gimnasio/infrastructure/repositories/clients_repo.py:127-148 | each row occurs exactly once per active payment of an existing client, expiring in the window, that yields it |
| AccessesRepo.AccessesRepository.Add | src/gimnasio/infrastructure/repositories/accesses_repo.py:14-27 | returns true; appends exactly one row with the given client, movement and time under the next id |
| AccessesRepo.AccessesRepository.constructor | src/gimnasio/infrastructure/repositories/accesses_repo.py:11-12 | the repository works on the given database |
| AccessesRepo.JoinNames | src/gimnasio/infrastructure/repositories/accesses_repo.py:31-33 | a row per access whose client still exists, carrying that client's names; accesses of deleted clients drop out; as many rows as accesses with an existing client |
| AccessesRepo.JoinNamesMultiplicity | src/gimnasio/infrastructure/repositories/accesses_repo.py:31-33 | a named row occurs exactly as often as its access is logged, and any other row never |
| AccessesRepo.JoinedNewestFirst | src/gimnasio/infrastructure/repositories/accesses_repo.py:30-34 | the joined rows, newest timestamp first, each as often as its access is logged, and as many as accesses with an existing client |
| AccessesRepo.Recientes | src/gimnasio/infrastructure/repositories/accesses_repo.py:29-39 | the first `min(limite, n)` of the `n` joined rows newest first (all `n` for a negative limit), so no left-out joined row is newer than a returned one |
| AccessesRepo.PorFecha | src/gimnasio/infrastructure/repositories/accesses_repo.py:41-52 | exactly the joined rows dated within `[inicio, fin]`, `fin` defaulting to `inicio`, newest first |
| AccessesRepo.PorFechaMultiplicity | src/gimnasio/infrastructure/repositories/accesses_repo.py:41-52 | each row in range occurs exactly as often as its access is logged: one row per access |
| AccessesRepo.UltimoDe | src/gimnasio/infrastructure/repositories/accesses_repo.py:54-71 | none iff the client has no access; otherwise one of its accesses with the latest timestamp |
| AccessesRepo.SemanaIncludesHoy | src/gimnasio/infrastructure/repositories/accesses_repo.py:75-93 | the week's entry count is never below today's |
| AccessesRepo.BusiestBelow | src/gimnasio/infrastructure/repositories/accesses_repo.py:95-102 | an hour below the bound with no fewer entries than any other hour below it |
| AccessesRepo.PeakHour | src/gimnasio/infrastructure/repositories/accesses_repo.py:95-105 | none iff the log has no `Entrada` row; otherwise an hour with at least one entry and a maximal entry count |
| AccessesRepo.TwoDigits | src/gimnasio/infrastructure/repositories/accesses_repo.py:97 | `strftime('%H')`: two decimal digits whose value is the hour |
| AccessesRepo.Estadisticas | src/gimnasio/infrastructure/repositories/accesses_repo.py:73-111 | `accesos_hoy` counts the log's entries (not exits) dated today and `accesos_semana` those dated from the week start on, so `accesos_hoy <= accesos_semana`; `hora_pico` is "N/A" iff there are no entries, otherwise the two-digit form of an hour with a maximal entry count |
| AccessesRepo.EstadisticasSnoc | src/gimnasio/infrastructure/repositories/accesses_repo.py:73-93 | logging one more movement raises today's count by one exactly for an entry dated today, and the week's count by one exactly for an entry dated this week; an exit changes neither |
| ClientsService.ValidateRegistration | src/gimnasio/services/clients_service.py:19-21 | passes iff the cédula is all digits and nombre and apellido are filled in; the error reported is the first failing check, in the order cédula required, cédula numeric, nombre, apellido |
| ClientsService.OptionalField | src/gimnasio/services/clients_service.py:27-30 | absent iff the key is missing or blank; otherwise the stripped value, trimmed and non-empty |
| ClientsService.BuiltClientNormalised | src/gimnasio/services/clients_service.py:23-33 | a validated form gives the cédula as typed, the name and surname as typed with their surrounding whitespace cut off (non-empty), optional fields absent or trimmed, the photo path as given, and today as the registration date |
| ClientsService.ClientsService.Register | src/gimnasio/services/clients_service.py:18-38 | a failed check returns its error and stores nothing; a taken cédula returns the "ya existe" error and stores nothing; otherwise the normalised client is appended, returned, and found by `get` |
| ClientsService.ClientsService.Update | src/gimnasio/services/clients_service.py:40-41 | exactly the repository's `update` |
| ClientsService.ClientsService.Get | src/gimnasio/services/clients_service.py:43-44 | exactly the repository's `get`: a stored client with that cédula, if any |
| ClientsService.ClientsService.Delete | src/gimnasio/services/clients_service.py:46-47 | exactly the repository's `remove` |
| ClientsService.ClientsService.ListAll | src/gimnasio/services/clients_service.py:49-50 | exactly the repository's `all`: every client, by name |
| ClientsService.ClientsService.Search | src/gimnasio/services/clients_service.py:52-53 | exactly the repository's `search`, estado defaulting to "Todos" |
| ClientsService.ClientsService.ResumenEstado | src/gimnasio/services/clients_service.py:55-64 | `total` is the number of clients, `activos` the number whose membership is in force, and `activos + vencidos = total` |
| ClientsService.ClientsService.constructor | src/gimnasio/services/clients_service.py:14-16 | the service works on the given repositories |
| ClientsService.ActivosEnStep | src/gimnasio/services/clients_service.py:59-63 | the loop step: the client at position `i` adds one to `activos` exactly when its active payment exists and is `esta_activo` |
| ClientsService.ActivosEnSnoc | src/gimnasio/services/clients_service.py:58-63 | one more client adds one to `activos` exactly when its membership is in force |
| ClientsService.ActivosEnPermutation | src/gimnasio/services/clients_service.py:56-58 | counting over the name-ordered listing gives the same `activos` as over the table |
| PaymentsService.CheckPago | src/gimnasio/services/payments_service.py:24-32 | passes iff the client exists, `monto > 0` and `duracion_meses > 0`; otherwise the first failure in that order is reported |
| PaymentsService.NuevoPagoVigente | src/gimnasio/services/payments_service.py:34-46 | the new payment equals its own renewal on that day, is valid that day, and runs for `30 · duracion` days |
| PaymentsService.PaymentsService.RegistrarPago | src/gimnasio/services/payments_service.py:17-48 | a rejection returns its error and saves nothing; otherwise a payment with no id, active, paid today and expiring `30 · duracion` days later, with the given amount, duration and method, is saved and returned; it then is the client's only active payment and in force today |
| PaymentsService.PaymentsService.PagoActivo | src/gimnasio/services/payments_service.py:50-51 | exactly the repository's `active_for_client` |
| PaymentsService.PaymentsService.HistorialCliente | src/gimnasio/services/payments_service.py:53-54 | exactly the repository's `for_client`: all of the client's payments |
| PaymentsService.PaymentsService.Todos | src/gimnasio/services/payments_service.py:56-57 | exactly the repository's `all` |
| PaymentsService.PaymentsService.ClientesVencidos | src/gimnasio/services/payments_service.py:59-60 | exactly the repository's `overdue_clients`: only payments expired before today |
| PaymentsService.PaymentsService.constructor | src/gimnasio/services/payments_service.py:12-15 | the service works on the given repositories |
| AccessesService.GateFor | src/gimnasio/services/accesses_service.py:24-31 | unknown client iff no row has the cédula; admitted iff the client exists and its active payment is `esta_activo`; the movement type plays no part |
| AccessesService.Confirmacion | src/gimnasio/services/accesses_service.py:40 | "Acceso " then the lower-cased movement type then " registrado correctamente" |
| AccessesService.AccessesService.Registrar | src/gimnasio/services/accesses_service.py:24-40 | unknown client: `(false, "Cliente no encontrado", None)`; no membership in force: `(false, "Membresía vencida o inexistente", cliente)`; in both the log is untouched; otherwise exactly one row with the given type and time is appended and the confirmation returned; type defaults to "Entrada" |
| AccessesService.RegistradoEsUltimo | src/gimnasio/infrastructure/repositories/accesses_repo.py:54-71 | with a clock that never runs backwards, the client's latest access right after a registration is at the registration time |
| AccessesService.AccessesService.Recientes | src/gimnasio/services/accesses_service.py:42-43 | exactly the repository's `recientes`, the limit defaulting to 20 |
| AccessesService.AccessesService.Estadisticas | src/gimnasio/services/accesses_service.py:45-46 | exactly the repository's `estadisticas` |
| AccessesService.AccessesService.constructor | src/gimnasio/services/accesses_service.py:14-22 | the service works on the given repositories |
| ReportsService.TasaRetencion | src/gimnasio/services/reports_service.py:31 | 0 when there are no clients; otherwise `tasa · total = activos · 100`, and between 0 and 100 when `activos <= total` |
| ReportsService.ReportsService.EstadisticasGenerales | src/gimnasio/services/reports_service.py:21-32 | the counts of `resumen_estado` copied unchanged, the income figures as given, and a retention rate within `[0, 100]` |
| ReportsService.IngresosPorMes | src/gimnasio/services/reports_service.py:34-43 | one dictionary per repository row, in the same order, with the same mes, total_mes and cantidad_pagos |
| ReportsService.ReportsService.AccesosEstadisticas | src/gimnasio/services/reports_service.py:45-46 | exactly the access service's `estadisticas` |
| ReportsService.ReportsService.ClientesVencidos | src/gimnasio/services/reports_service.py:48-49 | exactly the payment service's `clientes_vencidos` |
| ReportsService.ReportsService.constructor | src/gimnasio/services/reports_service.py:11-19 | the service works on the given services |

## Left out

- Cascade deletion is not modelled. The schema declares
  `ON DELETE CASCADE` (src/gimnasio/infrastructure/database.py:52,63), but the
  connection never turns on `PRAGMA foreign_keys`
  (src/gimnasio/infrastructure/database.py:16-19).
  - So `remove` deletes only the client row, and that client's payments and
    accesses stay.
    - A consequence the model keeps: `recientes` and `por_fecha` drop the
    accesses of a deleted client through their join, but `ultimo_de` still
    reports them.
- Connection handling, the schema DDL, commit/rollback, and the `ALTER TABLE`
  migrations in src/gimnasio/infrastructure/database.py are not modelled.
  - A migrated `pagos` table can start with several active rows per client.
    The one-active-row results therefore assume tables built through `save`.
- The money aggregates are not modelled: `ingresos_por_mes`,
  `resumen_mes_actual` and `ingresos_mes_anterior` (floating-point `SUM`
  grouped by `strftime` months). `ReportsService.ReportsService.EstadisticasGenerales`
  takes the two monthly sums as parameters. `ReportsService.IngresosPorMes`
  takes the repository's rows as a parameter.
- The `dias_vencido` and `dias_restantes` columns are not modelled. They are
  fractional `JULIANDAY` differences against the current time. For the same
  reason, the overdue and expiring rows carry the whole client and the expiry
  date, rather than the selected columns.
- The clock is a parameter, and there is one clock.
  - SQLite's `'now'` is UTC, while Python's `date.today()` is local time. The
    model treats them as the same day.
  - Timestamps are compared as (day, hour, offset) triples. That is the order
    of their ISO text forms.
- Text handling is approximated by ASCII:
  - `str.strip`, `str.isdigit` and `str.lower` use the ASCII whitespace,
    digit and letter sets, where Python uses the Unicode ones;
  - `LIKE` is modelled as ASCII case-insensitive substring matching, so `%`
    and `_` inside a criterion are taken literally rather than as wildcards.
- `monto` is a real number. Floating-point rounding is not modelled, and
  neither is a NaN amount getting past `monto <= 0`.
- `ReportsService.TasaRetencion`: the retention rate is an exact real
  number. The source computes a Python float, and its rounding is not
  modelled.
- Ties in `ORDER BY` are not modelled as SQLite leaves them: SQLite leaves
  their order unspecified, and the model keeps table order.
- `AccessesRepo.PeakHour`: the query picks any hour with the maximal count,
  while the model always picks the earliest such hour.
- `ClientsRepo.ExpiringWithin`: `proximos_a_vencer` builds the SQLite
  modifier `"+{dias} days"`. The model reads it as `today + dias` for every
  `dias`, including the text SQLite would get from a negative `dias`.
- The settings service (JSON files, backups, `VACUUM`), the formatters, the
  Tk user interface and the start-up wiring are outside the business-rule
  layer and are not part of this model.
- `ValidationError` messages are returned as values (`Validators.Message`), not
  raised. `register` raises for a duplicate key where the model returns
  `Err(CedulaExistente)`.
