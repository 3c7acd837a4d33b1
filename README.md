# inventario-comidas in Dafny

This project models the logic of inventario-comidas, a kitchen inventory and order system (branded "Kitchify") with two halves.
- **Server.** An Express/MongoDB server keeps three collections: ingredients (stock and minimum), recipes (requirements per unit, price and category) and orders. Placing an order looks up the recipe, checks that every ingredient covers the requirement times the ordered amount, deducts the stock, stamps the order with the Colombia (UTC−5) date and time and an id made from the clock, stores it, and then asks an e-mail alert service whether the low-stock alert should go out today. Request bodies are checked by zod schemas. Failures become `AppError`s with a code, a status and a default message, and an error middleware turns them into JSON responses.
- **Client.** A React client filters, groups, paginates and charts the same data.

Each source file has its own Dafny module:

| Dafny file | module | models |
|---|---|---|
| domain.dfy, wrappers.dfy | Domain, Wrappers | the records (`Ingrediente`, `Receta`, `Orden`), `Option`/`Result`, JavaScript's `x \|\| fallback` |
| ingrediente_repository.dfy | IngredienteStore | the ingredient collection as a class over a map plus insertion order |
| receta_repository.dfy | RecetaStore | the recipe collection, same shape |
| orden_repository.dfy | OrdenStore | the order log (stored orders with their `createdAt`) |
| ingrediente_service.dfy | IngredienteService | availability check, deduction loop, restock, update, create, reset |
| receta_service.dfy | RecetaService | `getRecetaById` and the ordered checks of `createReceta` |
| orden_service.dfy | OrdenService | order ids and Colombia date/time strings from an epoch-millisecond instant |
| create_orden_use_case.dfy | CreateOrdenUseCase | the whole order placement and the low-stock alert hook |
| email_alert_service.dfy | EmailAlertService | the alert service object: configuration, threshold, once-per-UTC-day rule, forced alerts |
| schemas.dfy | Schemas | the four zod acceptance rules and the issues they report |
| app_error.dfy | AppErrors | error codes, default messages and the `AppError` factories |
| error_handler.dfy | ErrorHandler | `errorHandler` and `notFoundHandler` |
| calculations.dfy | Calculations | `calcularTotales`, `ventasPorCategoria` |
| nueva_orden.dfy | NuevaOrden | the new-order screen: max orderable amount, amount counters, filters |
| inventario.dfy | Inventario | the inventory list: filters, low-stock count, 8-per-page pagination |
| historial_ordenes.dfy | HistorialOrdenes | the order history: filters, day grouping, expand/collapse |
| modal_reabastecer.dfy | ModalReabastecer | the restock dialog's counter and indicators |
| grafica_*.dfy, tarjetas_estadisticas.dfy | Grafica…, TarjetasEstadisticas | the statistics charts and cards |
| estadisticas_ventas.dfy, estadisticas_page.dfy | EstadisticasVentas, EstadisticasPage | the statistics section and page |
| menu.dfy, toast.dfy | Menu, Toast | the menu filter and the toast list hook |
| aggregate.dfy, sorting.dfy, string_sets.dfy, text.dfy, calendar.dfy | Aggregate, Sorting, StringSets, Text, Calendar | shared helpers |

The shared helpers are:
- `Aggregate`: filter, sums, first-occurrence key lists and groups, which stand in for JavaScript objects used as dictionaries.
- `Sorting`: a stable insertion sort with a comparator, matching `Array.prototype.sort`, which has been stable since ES2019.
- `StringSets`: sorted distinct string lists.
- `Text`: decimal printing and parsing, padding, split/join, trim, ASCII case mapping and lexicographic string order by Unicode scalar value.
- `Calendar`: a proleptic Gregorian day-number conversion, with its round trip, validity and order lemmas.

## How the model is shaped

**State and dependencies**
- State the source mutates lives in classes. That covers the three repositories, the alert service singleton, and the client components whose state hooks are updated in place: the inventory list, the history view, the restock dialog and the toast hook.
- Services are module-level methods that take the repository objects they use.
- React `setState(prev => …)` updaters whose result is a fresh record become functions from the old value to the new one: the new-order amount map and the history's expanded-day set.

**Outside inputs become parameters**
- The clock becomes `now: int`, in epoch milliseconds. Placing an order reads the clock four times (`new Date()` for fecha and hora, `Date.now()` for the id, `createdAt` on save, and the alert check's `new Date()`), so `CreateOrdenUseCase.Instantes` carries four independent instants.
- Whether the mail transport accepted a message becomes `sendOk: bool`.
- What `parseInt` read becomes an `Option<int>`.
- A JavaScript number typed by the user becomes `JsNumber`, with `NaN` and the infinities.

**Number types**
- Amounts of stock are `int`.
- Prices and totals are `real`.

**Loops**
- The source's loops stay loops: the availability check, the deduction and reset loops, `calcularMaxDisponible`, the sync effect, and every `forEach` that fills a dictionary.
- Each loop is proved against a function.
- Each such function has its own lemmas: an iff, a closed form, the sums it preserves, and one group per key.

## Model

| member | source | states |
|---|---|---|
| Domain.OrElse | client/src/utils/calculations.ts:20 | `s \|\| fallback` on an optional string: the string when present and non-empty, otherwise the fallback |
| IngredienteStore.IngredienteRepository.constructor | server/src/repositories/IngredienteRepository.ts:4-60 | an empty collection |
| IngredienteStore.IngredienteRepository.FindAll | server/src/repositories/IngredienteRepository.ts:5-7 | every stored ingredient exactly once, in insertion order, with distinct ids |
| IngredienteStore.IngredienteRepository.FindById | server/src/repositories/IngredienteRepository.ts:9-11 | found iff the id is stored, and then it is the stored record with that id |
| IngredienteStore.IngredienteRepository.FindByIds | server/src/repositories/IngredienteRepository.ts:13-15 | exactly the stored ingredients whose id is listed, each once, in collection order, whatever repeats the list has |
| IngredienteStore.IngredienteRepository.FindByIdsCount | server/src/repositories/IngredienteRepository.ts:13-15 | the result is as long as the id list iff the ids are distinct and all stored |
| IngredienteStore.IngredienteRepository.FoundIds | server/src/repositories/IngredienteRepository.ts:13-15 | the ids found are the listed ids that are stored |
| IngredienteStore.IngredienteRepository.FindLowStock | server/src/repositories/IngredienteRepository.ts:54-58 | exactly the stored ingredients with cantidad ≤ minimo, in collection order |
| IngredienteStore.IngredienteRepository.Create | server/src/repositories/IngredienteRepository.ts:17-20 | a taken id is refused by the unique index and nothing changes; otherwise the record is added at the end |
| IngredienteStore.Patched | server/src/repositories/IngredienteRepository.ts:22-28 | a `$set` of a partial record: every given field replaces the stored one, the `id` included, and absent ones stay |
| IngredienteStore.IngredienteRepository.Update | server/src/repositories/IngredienteRepository.ts:22-28 | unknown id gives null and no change; a new id held by another record is refused by the unique index with no change; otherwise only that record is patched, re-keyed under its new id at the same position, and returned; without a new id the keys and order stay as they were |
| IngredienteStore.Bumped | server/src/repositories/IngredienteRepository.ts:30-44 | a `$inc` on one id: only that record's cantidad moves by delta, the key set stays the same |
| IngredienteStore.IncrementDecrementRoundTrip | server/src/repositories/IngredienteRepository.ts:30-44 | decrementing by what was incremented restores the collection |
| IngredienteStore.BumpedTwice | server/src/repositories/IngredienteRepository.ts:30-44 | two increments on an id are one increment by their sum |
| IngredienteStore.IngredienteRepository.IncrementQuantity | server/src/repositories/IngredienteRepository.ts:30-36 | adds exactly cantidad to the matching record, returns it updated, null for an unknown id |
| IngredienteStore.IngredienteRepository.DecrementQuantity | server/src/repositories/IngredienteRepository.ts:38-44 | subtracts exactly cantidad from the matching record, without a lower bound, null for an unknown id |
| IngredienteStore.IngredienteRepository.ResetQuantity | server/src/repositories/IngredienteRepository.ts:46-52 | sets the matching record's cantidad, every other field and record unchanged |
| RecetaStore.RecetaRepository.constructor | server/src/repositories/RecetaRepository.ts:4-30 | an empty catalogue |
| RecetaStore.RecetaRepository.FindAll | server/src/repositories/RecetaRepository.ts:5-7 | every stored recipe once, position by position in collection order, with distinct ids |
| RecetaStore.RecetaRepository.FindById | server/src/repositories/RecetaRepository.ts:9-11 | found iff the id is stored, and then the stored recipe |
| RecetaStore.RecetaRepository.Create | server/src/repositories/RecetaRepository.ts:13-16 | a taken id is refused with no change; otherwise stored at the end and then found by its id |
| RecetaStore.Patched | server/src/repositories/RecetaRepository.ts:18-24 | every given field replaces the stored one, the `id` included, and absent ones stay |
| RecetaStore.RecetaRepository.Update | server/src/repositories/RecetaRepository.ts:18-24 | null for an unknown id; a new id held by another recipe is refused by the unique index with no change; otherwise only the matching recipe changes, re-keyed under its new id at the same position |
| RecetaStore.RecetaRepository.FindByCategory | server/src/repositories/RecetaRepository.ts:26-28 | exactly the recipes whose categoria equals the argument, case-sensitively, in catalogue order |
| OrdenStore.OrdenRepository.constructor | server/src/repositories/OrdenRepository.ts:14-51 | an empty log |
| OrdenStore.NewerFirstIsOrder | server/src/repositories/OrdenRepository.ts:16 | "newer createdAt first" is a total preorder, so sorting by it is well defined |
| OrdenStore.OrdenRepository.FindAll | server/src/repositories/OrdenRepository.ts:15-17 | a permutation of the log, newest first |
| OrdenStore.Lookup | server/src/repositories/OrdenRepository.ts:19-21 | found iff some stored order has the id, and then one with that id |
| OrdenStore.OrdenRepository.FindById | server/src/repositories/OrdenRepository.ts:19-21 | found iff some stored order has the id, and then one with that id |
| OrdenStore.OrdenRepository.Create | server/src/repositories/OrdenRepository.ts:23-26 | a taken id is refused by the unique index and the log is unchanged; otherwise the order is appended with createdAt = now |
| OrdenStore.OrdenRepository.DeleteAll | server/src/repositories/OrdenRepository.ts:28-30 | leaves the log empty |
| OrdenStore.OrdenRepository.FindByDateRange | server/src/repositories/OrdenRepository.ts:32-39 | exactly the orders with start ≤ createdAt ≤ end, each as often as stored, newest first |
| IngredienteService.CheckAvailability | server/src/services/IngredienteService.ts:93-117 | the loop's answer equals the requirement-by-requirement verdict `Check` |
| IngredienteService.CheckAvailableIff | server/src/services/IngredienteService.ts:97-116 | available iff every requirement names a stored ingredient with cantidad ≥ per-unit × multiplier |
| IngredienteService.CheckFirstFailure | server/src/services/IngredienteService.ts:100-113 | when unavailable, the first unmet requirement in list order decides the message: "Ingrediente {id} no encontrado" for a missing ingredient, or its name with the available and required amounts |
| IngredienteService.DeductIngredientes | server/src/services/IngredienteService.ts:119-127 | the ledger after the loop is `Deducted`: one decrement per requirement in list order, insertion order kept |
| IngredienteService.Deducted | server/src/services/IngredienteService.ts:123-126 | the deduction keeps the set of stored ids |
| IngredienteService.DeductedExactly | server/src/services/IngredienteService.ts:119-127 | every ingredient loses per-unit × multiplier once per occurrence in the list, and unlisted ones are untouched |
| IngredienteService.RequestedUnlisted | server/src/services/IngredienteService.ts:123-126 | an ingredient no requirement names loses nothing |
| IngredienteService.RequestedOnce | server/src/services/IngredienteService.ts:123-126 | an ingredient named once loses exactly its per-unit × multiplier |
| IngredienteService.NoNegativeStock | server/src/services/IngredienteService.ts:97-127 | with distinct requirement ids, a deduction that passed the check leaves no stock that was non-negative below zero |
| IngredienteService.DuplicateIdsGoNegative | server/src/services/IngredienteService.ts:97-127 | with a repeated id the check looks at each line alone, so stock 5 and two lines of 3 pass the check and end at −1 |
| IngredienteService.RestockIngrediente | server/src/services/IngredienteService.ts:53-65 | unknown id is a 404 INGREDIENTE_NOT_FOUND with no change; otherwise only that stock rises by cantidad and the updated record is returned |
| IngredienteService.UpdateIngrediente | server/src/services/IngredienteService.ts:39-51 | unknown id is a 404 INGREDIENTE_NOT_FOUND with no change; a rename onto another ingredient's id is the index's error, an unrecognised error for the handler (a 500), with no change; otherwise only that record takes the patch, under its new id if the body has one, and is returned |
| IngredienteService.CreateIngrediente | server/src/services/IngredienteService.ts:18-37 | a taken id is a 400 INGREDIENTE_CREATE_ERROR, then cantidad < minimo is a 400 VALIDATION_ERROR, in that order and with nothing stored; otherwise stored and returned |
| IngredienteService.Reset | server/src/services/IngredienteService.ts:82-84 | the reset loop keeps the set of stored ids |
| IngredienteService.ResetValues | server/src/services/IngredienteService.ts:82-84 | with distinct table ids, each listed and stored ingredient gets its table amount and every other stays as it was |
| IngredienteService.InitialStockValues | server/src/services/IngredienteService.ts:68-80 | after the reset each of ids "1"–"11" that is stored holds its table amount (for example "7" holds 2000) |
| IngredienteService.ResetAllIngredientes | server/src/services/IngredienteService.ts:67-87 | the ledger becomes `Reset` of the table and the result is the whole collection afterwards |
| RecetaService.GetRecetaById | server/src/services/RecetaService.ts:21-27 | ok iff the id is stored (the stored recipe); otherwise a 404 RECETA_NOT_FOUND |
| RecetaService.RequirementIds | server/src/services/RecetaService.ts:38 | the requirement ids, position by position |
| RecetaService.FoundIds | server/src/services/RecetaService.ts:42 | the found records' ids, position by position |
| RecetaService.MissingIds | server/src/services/RecetaService.ts:43 | exactly the requested ids not among those found, in request order (a subsequence of the request); empty iff every id was found |
| RecetaService.FirstNonPositive | server/src/services/RecetaService.ts:51-58 | the first requirement with cantidad ≤ 0, if any, and none iff all are positive |
| RecetaService.FindNonPositive | server/src/services/RecetaService.ts:51-58 | the loop finds the same requirement as `FirstNonPositive` |
| RecetaService.FirstNonPositiveUnique | server/src/services/RecetaService.ts:51-58 | any position that is non-positive with all earlier ones positive is the one reported |
| RecetaService.CreateReceta | server/src/services/RecetaService.ts:29-61 | stores the recipe iff no check throws; when one throws, its error is returned and the catalogue is unchanged |
| RecetaService.AcceptedIff | server/src/services/RecetaService.ts:29-60 | accepted iff the id is new, the ingredient ids are distinct and all stored, and every amount is positive |
| RecetaService.RepeatedIdRejected | server/src/services/RecetaService.ts:41-48 | a repeated ingredient id is refused by the length test with an empty "Ingredientes no encontrados: " list |
| RecetaService.NoneMissing | server/src/services/RecetaService.ts:39-43 | when every id is stored, nothing is reported missing |
| RecetaService.MissingAreUnstored | server/src/services/RecetaService.ts:39-43 | the reported ids are exactly the requested ids that are not stored |
| OrdenService.ColombiaLocal | server/src/services/OrdenService.ts:30-31 | the instant shifted by −5 h (−18 000 000 ms) |
| OrdenService.GenerateOrdenId | server/src/services/OrdenService.ts:23-25 | "ord-" followed by the decimal instant, which parses back to the instant |
| OrdenService.OrdenIdInjective | server/src/services/OrdenService.ts:23-25 | two ids are equal iff they were made in the same millisecond |
| OrdenService.GetFechaHoraColombia | server/src/services/OrdenService.ts:27-43 | fecha is year-MM-DD and hora is HH:mm of the shifted instant's UTC fields, padded to two digits |
| OrdenService.FechaFields | server/src/services/OrdenService.ts:33-35 | fecha parses back into the shifted instant's year, month (1–12) and day (within the month) |
| OrdenService.FechaStringFields | server/src/services/OrdenService.ts:40 | a formatted date splits at its two dashes into the year, month and day it came from |
| OrdenService.HoraFields | server/src/services/OrdenService.ts:36-37 | hora is five characters, HH < 24, ':' and mm < 60 of the shifted instant |
| OrdenService.FechaStringInjective | server/src/services/OrdenService.ts:40 | two valid dates with the same formatted string are the same date |
| OrdenService.FechaSameDay | server/src/services/OrdenService.ts:30-40 | two instants get the same fecha iff they fall on the same Colombia day |
| OrdenService.FechaOrder | server/src/services/OrdenService.ts:30-40 | for four-digit years, fecha strings compare as the Colombia days do, so string range filters on fecha are day ranges |
| OrdenService.FechaStringOrder | server/src/services/OrdenService.ts:40 | for four-digit years, the string order of formatted dates is the calendar order |
| OrdenService.DayOrder | server/src/services/OrdenService.ts:33-35 | the calendar date of day z comes before that of day z′ iff z < z′ |
| OrdenService.DigitStringOrder | server/src/services/OrdenService.ts:40 | zero-padded YYYY-MM-DD strings compare in calendar order |
| Calendar.UtcDate | server/src/services/OrdenService.ts:33-35 | `getUTCFullYear/Month/Date` always form a valid Gregorian date |
| Calendar.UtcHours | server/src/services/OrdenService.ts:36 | `getUTCHours` is in 0..23 |
| Calendar.UtcMinutes | server/src/services/OrdenService.ts:37 | `getUTCMinutes` is in 0..59 |
| Calendar.TimeOfDayDecomposition | server/src/services/OrdenService.ts:33-37 | day, hours and minutes recompose the instant down to the minute |
| Calendar.CivilRoundTrip | server/src/services/OrdenService.ts:33-35 | day number → date → day number is the identity, and the date is valid |
| Calendar.CivilFromDaysInjective | server/src/services/OrdenService.ts:33-35 | distinct day numbers give distinct dates |
| Calendar.CivilFromDaysMonotone | server/src/services/OrdenService.ts:33-35 | a later day number gives a later date |
| Calendar.DaysFromCivilMonotone | server/src/services/OrdenService.ts:33-35 | a later valid date has a larger day number |
| Text.IntToString | server/src/services/OrdenService.ts:24 | `String(n)` / a template literal: decimal digits with a leading '-' iff negative |
| Text.NatToString | server/src/services/OrdenService.ts:33-37 | `String(n)` of a natural: at least one digit, no leading zero from 10 on |
| Text.ParseIntToString | server/src/services/OrdenService.ts:24 | the printed integer reads back to itself |
| Text.ParseNatToString | server/src/services/OrdenService.ts:24 | the printed natural reads back to itself |
| Text.IntToStringInjective | server/src/services/OrdenService.ts:24 | distinct integers print differently |
| Text.PadStart | server/src/services/OrdenService.ts:34-37 | `padStart(width, fill)`: the original at the end, fill characters before it, length max(\|s\|, width) |
| Text.PadTwo | server/src/services/OrdenService.ts:34-37 | a number below 100 padded to two places is its two-digit form |
| Text.FourDigits | server/src/services/OrdenService.ts:33 | a year from 1000 to 9999 prints as exactly four digits |
| Text.DigitsInjective | server/src/services/OrdenService.ts:33-40 | fixed-width digit strings are equal iff the numbers are |
| Text.DigitsOrder | server/src/services/OrdenService.ts:33-40 | fixed-width digit strings compare as the numbers do |
| Text.LexLessTrichotomy | client/src/components/estadisticas/GraficaVentasPorDia.tsx:50 | the string order (by Unicode scalar value) is total: less, equal or greater |
| Text.LexLessTransitive | client/src/components/estadisticas/GraficaVentasPorDia.tsx:50 | the string order (by Unicode scalar value) is transitive |
| Text.LexLessAsymmetric | client/src/components/estadisticas/GraficaVentasPorDia.tsx:50 | the string order (by Unicode scalar value) is asymmetric |
| Text.LexLessConcat | server/src/services/OrdenService.ts:40 | comparing equal-length heads first and then the tails is comparing the concatenations |
| Text.Split | server/src/middlewares/errorHandler.ts:18 | `split` on a one-character separator gives at least one piece |
| Text.SplitJoin | server/src/middlewares/errorHandler.ts:18 | splitting `join(sep)` gives the parts back when no part contains the separator |
| Text.TrimStart | client/src/components/Inventario.tsx:60 | the suffix left after dropping exactly the leading JavaScript whitespace |
| Text.TrimEnd | client/src/components/Inventario.tsx:60 | the prefix left after dropping exactly the trailing JavaScript whitespace |
| Text.TrimEmpty | client/src/components/NuevaOrden.tsx:31 | `trim()` is empty iff every character is whitespace |
| Text.ToLower | client/src/components/Inventario.tsx:55 | `toLowerCase`, character by character, same length |
| Text.ToUpper | client/src/components/estadisticas/GraficaVentasPorCategoria.tsx:28 | `toUpperCase`, character by character, same length |
| Text.ToLowerIdempotent | client/src/components/Inventario.tsx:55 | lowercasing twice is lowercasing once |
| Sorting.Sort | client/src/components/estadisticas/GraficaProductosMasVendidos.tsx:67 | `Array.prototype.sort` with a comparator: a permutation, sorted whenever the comparator is a total preorder |
| Sorting.InsertStable | client/src/components/estadisticas/GraficaProductosMasVendidos.tsx:67 | inserting an element puts it after every element the comparator ties with it |
| Sorting.SortStable | client/src/components/estadisticas/GraficaProductosMasVendidos.tsx:67-68 | stability: elements that tie under the comparator keep their input order, which decides which tied products fall inside the top 8 |
| Aggregate.Renamed | server/src/repositories/IngredienteRepository.ts:22-28 | the collection order after a rename: the same positions, the old id replaced by the new one, still without repeats when the new id was free |
| StringSets.Dedup | client/src/components/Menu.tsx:24 | `new Set(...)` as a list: distinct, with exactly the elements of the input |
| StringSets.LexLeIsOrder | client/src/components/Menu.tsx:25 | the default `sort()` order on strings is a total preorder |
| StringSets.SortedDistinct | client/src/components/Menu.tsx:23-26 | `Array.from(new Set(xs)).sort()`: distinct, ascending, with exactly the elements of xs |
| CreateOrdenUseCase.Flatten | server/src/use-cases/CreateOrdenUseCase.ts:72-79 | every field copied, a missing or empty categoria becomes "otros" |
| CreateOrdenUseCase.FlattenAll | server/src/use-cases/CreateOrdenUseCase.ts:72-79 | every ingredient flattened, in order |
| CreateOrdenUseCase.FlattenKeepsLowness | server/src/use-cases/CreateOrdenUseCase.ts:72-81 | flattening changes no ingredient's low-stock status, so the alert sees the ledger's low set |
| CreateOrdenUseCase.NewOrden | server/src/use-cases/CreateOrdenUseCase.ts:48-59 | id from the `Date.now()` read, the recipe's id, name and category, the amount, total = precio × cantidad, Colombia fecha/hora from the `new Date()` read |
| CreateOrdenUseCase.FechaBeforeMidnight | server/src/use-cases/CreateOrdenUseCase.ts:48-51 | the date and the id are separate clock reads: one millisecond apart across a Colombian midnight, the order's fecha is not the date of its id's instant |
| CreateOrdenUseCase.InsufficientError | server/src/use-cases/CreateOrdenUseCase.ts:39-44 | a 400 INGREDIENTE_INSUFFICIENT carrying the check's message, or the default when that is empty |
| CreateOrdenUseCase.CheckLowStockAlerts | server/src/use-cases/CreateOrdenUseCase.ts:68-85 | the alert decision over the whole ledger flattened; only lastAlertDate may change |
| CreateOrdenUseCase.Fulfil | server/src/use-cases/CreateOrdenUseCase.ts:46-63 | deduct, stamp and append; a taken id fails after the deduction and skips the alert |
| CreateOrdenUseCase.Record | server/src/use-cases/CreateOrdenUseCase.ts:50-63 | a taken id fails with the log unchanged and no alert; otherwise the order is appended with createdAt = the save instant, and the alert check runs at its own instant over the whole ledger |
| CreateOrdenUseCase.Execute | server/src/use-cases/CreateOrdenUseCase.ts:29-66 | unknown recipe (404) and unmet check (400) change nothing; otherwise stock is `Deducted`, then the order is appended (createdAt from the save instant) and the alert runs, or a taken id fails with the deduction kept |
| CreateOrdenUseCase.SameMillisecondCollision | server/src/use-cases/CreateOrdenUseCase.ts:46-59 | two orders placed in the same millisecond: the second passes the check, is deducted and then hits a taken id |
| CreateOrdenUseCase.CollisionStock | server/src/use-cases/CreateOrdenUseCase.ts:46 | in that run stock 5 with a requirement of 2 passes and is left at 3 |
| CreateOrdenUseCase.ExecuteAtomic | server/src/use-cases/CreateOrdenUseCase.ts:29-66 | corrected placement: fails iff unknown recipe, unmet check or taken id, and every failure leaves stock and log unchanged |
| EmailAlertService.LowSet | server/src/services/emailAlertService.ts:43-45 | exactly the ingredients with cantidad ≤ minimo, in input order |
| EmailAlertService.StatusLabel | server/src/services/emailAlertService.ts:90 | "CRÍTICO" iff below the minimum, "BAJO" iff at or above it |
| EmailAlertService.AlertService.constructor | server/src/services/emailAlertService.ts:16-18 | no transport, no configuration, no alert sent yet |
| EmailAlertService.AlertService.Initialize | server/src/services/emailAlertService.ts:20-35 | the config is always kept; a transport is created only when both user and password are non-empty |
| EmailAlertService.Decide | server/src/services/emailAlertService.ts:37-66 | no transport or config: nothing; fewer low items than the threshold: nothing; already sent on today's UTC date: nothing; otherwise send the low set |
| EmailAlertService.AlertService.CheckAndSendAlerts | server/src/services/emailAlertService.ts:37-66 | the outcome is `Decide`; lastAlertDate becomes today only after a successful send, and a failed send leaves it unchanged |
| EmailAlertService.AlertService.ForceAlert | server/src/services/emailAlertService.ts:172-184 | sends whenever something is low, ignoring threshold and lastAlertDate, and never updates lastAlertDate |
| EmailAlertService.IsoTodayInjective | server/src/services/emailAlertService.ts:53 | two instants have the same `toISOString` date iff they fall on the same UTC day |
| EmailAlertService.IsoDateInjective | server/src/services/emailAlertService.ts:53 | within ±999 999 years, distinct dates print as distinct ISO dates |
| EmailAlertService.IsoYearInjective | server/src/services/emailAlertService.ts:53 | the ISO year field (4 digits, or a sign and 6 digits) is injective |
| EmailAlertService.OtherIsoOtherDay | server/src/services/emailAlertService.ts:53-54 | a different ISO date means a different UTC day |
| EmailAlertService.MsDayMonotone | server/src/services/emailAlertService.ts:53 | a later instant is never on an earlier UTC day |
| EmailAlertService.ShiftedDay | server/src/services/emailAlertService.ts:53 | the Colombia day equals the UTC day iff the instant is at least 5 h into the UTC day, and is otherwise the day before |
| EmailAlertService.TodaysDiffer | server/src/services/emailAlertService.ts:53 | the alert's "today" (UTC) equals the order's fecha (Colombia) iff the UTC time of day is at least 05:00 |
| EmailAlertService.ExtendSends | server/src/services/emailAlertService.ts:52-61 | one more check keeps "successful sends fall on pairwise different UTC days" |
| EmailAlertService.SendBeforeNewSend | server/src/services/emailAlertService.ts:52-61 | every earlier send lies on a strictly earlier UTC day than a new one |
| EmailAlertService.RunChecks | server/src/services/emailAlertService.ts:37-66 | over any run of checks at non-decreasing instants, at most one alert is sent per UTC day |
| Schemas.Rule | server/src/validators/schemas.ts:3-32 | one rule: no issue iff it holds, otherwise exactly one issue with its path and message |
| Schemas.IngredienteIssues | server/src/validators/schemas.ts:3-10 | no issues iff id, nombre and unidad are non-empty and cantidad, minimo ≥ 0; at most five issues, one per field |
| Schemas.LowStockBodyAccepted | server/src/validators/schemas.ts:3-10 | the schema accepts cantidad < minimo, which only the service refuses |
| Schemas.RestockIssues | server/src/validators/schemas.ts:12-14 | accepted iff cantidad > 0, otherwise the single message "La cantidad debe ser mayor a 0" |
| Schemas.ElementIssues | server/src/validators/schemas.ts:22-25 | one requirement: no issue iff id non-empty and cantidad > 0; paths are ingredientes.k.field |
| Schemas.ElementsIssues | server/src/validators/schemas.ts:21-25 | no issue iff every requirement is valid; every path points at a position in range |
| Schemas.RecetaIssues | server/src/validators/schemas.ts:16-27 | no issues iff id, nombre, categoria non-empty, precio > 0, at least one requirement and all requirements valid |
| Schemas.OrdenIssues | server/src/validators/schemas.ts:29-32 | no issues iff recetaId non-empty and cantidad a positive integer; at most three issues |
| Schemas.NegativeFractionTwoIssues | server/src/validators/schemas.ts:31 | cantidad −1.5 breaks both number rules and gets two issues |
| Schemas.AcceptedOrdenQuantity | server/src/validators/schemas.ts:29-32 | an accepted order amount is a whole number ≥ 1 |
| AppErrors.CodeNameRoundTrip | server/src/utils/errorCodes.ts:1-15 | each code's wire name reads back to that code |
| AppErrors.CodeNameInjective | server/src/utils/errorCodes.ts:1-15 | distinct codes have distinct names |
| AppErrors.MakeAppError | server/src/utils/AppError.ts:9-23 | code, status and details as given, always operational; the message is the given one if non-empty, else the code's default |
| AppErrors.MessageNeverEmpty | server/src/utils/AppError.ts:15 | every AppError has a non-empty message, because every default message is non-empty |
| AppErrors.BadRequest | server/src/utils/AppError.ts:25-27 | status 400, with the given code, message (or default) and details |
| AppErrors.NotFoundError | server/src/utils/AppError.ts:29-31 | status 404, no details |
| AppErrors.Internal | server/src/utils/AppError.ts:33-35 | status 500, no details |
| ErrorHandler.KeyTexts | server/src/middlewares/errorHandler.ts:18 | each path key printed, names as they are and indices in decimal |
| ErrorHandler.FieldErrors | server/src/middlewares/errorHandler.ts:17-20 | one field error per issue, in order, field = the path joined with '.' |
| ErrorHandler.FieldNameRecoversPath | server/src/middlewares/errorHandler.ts:18 | when no key contains '.', splitting the field name gives the path back |
| ErrorHandler.Handle | server/src/middlewares/errorHandler.ts:6-43 | validation → 400 VALIDATION_ERROR whose errors are, position by position, each issue's path joined with '.' and its message; AppError → its status, code and message, with details only when truthy; anything else → 500 INTERNAL_ERROR, with the stack only in development; never success |
| ErrorHandler.FactoriesReachClient | server/src/middlewares/errorHandler.ts:25-32 | the three factories reach the client as 400, 404 and 500 with their code and default message |
| ErrorHandler.NoStackInProduction | server/src/middlewares/errorHandler.ts:41 | outside development no response carries a stack |
| ErrorHandler.RejectedOrdenBody | server/src/middlewares/errorHandler.ts:12-22 | an invalid order body always yields a 400 with at least one field error |
| ErrorHandler.NotFoundRoute | server/src/middlewares/errorHandler.ts:46-52 | 404 NOT_FOUND whose message contains the requested URL |
| Calculations.CalcularTotales | client/src/utils/calculations.ts:3-14 | totalOrdenes is the number of orders (the count of ones) |
| Calculations.VentasPorCategoria | client/src/utils/calculations.ts:16-33 | one bucket per category met, holding that category's quantity sum, sales sum and order count |
| Calculations.AddToBucket | client/src/utils/calculations.ts:20-28 | one visit adds exactly the order's key to the dictionary |
| Calculations.AddToBucketCorrect | client/src/utils/calculations.ts:19-29 | one `forEach` step keeps "the buckets are the groups of the orders seen so far" |
| Calculations.OwnBucket | client/src/utils/calculations.ts:22-28 | the visited key's bucket grows by exactly that order |
| Calculations.OtherBuckets | client/src/utils/calculations.ts:19-29 | every other bucket is the group it was |
| Calculations.OtherBucketKept | client/src/utils/calculations.ts:20 | an order of another category leaves a group's figures unchanged |
| Calculations.OneBucketEach | client/src/utils/calculations.ts:19-24 | each order falls in exactly one bucket, its own category or "Sin categoria" |
| Calculations.BucketsReproduceTotales | client/src/utils/calculations.ts:3-33 | the buckets' sales, quantities and counts add up to `calcularTotales` |
| TarjetasEstadisticas.Promedio | client/src/components/estadisticas/TarjetasEstadisticas.tsx:20 | 0 for no orders, otherwise exactly total / count |
| TarjetasEstadisticas.CalcularEstadisticas | client/src/components/estadisticas/TarjetasEstadisticas.tsx:17-28 | the order count is the length and the average is the guarded quotient |
| TarjetasEstadisticas.AgreesWithTotales | client/src/components/estadisticas/TarjetasEstadisticas.tsx:18-25 | the cards show the same three totals as `calcularTotales` |
| TarjetasEstadisticas.SumRealBounds | client/src/components/estadisticas/TarjetasEstadisticas.tsx:18 | n totals between lo and hi sum to between lo·n and hi·n |
| TarjetasEstadisticas.PromedioBetweenExtremes | client/src/components/estadisticas/TarjetasEstadisticas.tsx:18-20 | with orders, the average lies between the smallest and largest order total |
| TarjetasEstadisticas.PromedioOfEqualTotals | client/src/components/estadisticas/TarjetasEstadisticas.tsx:18-20 | equal totals average to that total |
| EstadisticasVentas.OrdenesFiltradas | client/src/components/EstadisticasVentas.tsx:24-27 | no filtering unless both bounds are set; then exactly the orders with inicio ≤ fecha ≤ fin, in order |
| EstadisticasVentas.IngredientesBajos | client/src/components/EstadisticasVentas.tsx:34-36 | exactly the ingredients with cantidad ≤ minimo, in order |
| EstadisticasVentas.PanelIffSomeLow | client/src/components/estadisticas/TarjetasEstadisticas.tsx:89 | the low-stock panel shows iff some ingredient is at or under its minimum |
| EstadisticasVentas.Mostrar | client/src/components/EstadisticasVentas.tsx:56-83 | the placeholder iff there are no orders; otherwise the filtered orders, with export enabled iff no export is running and the filter keeps something |
| EstadisticasVentas.ExportNeedsAnOrderInRange | client/src/components/EstadisticasVentas.tsx:74 | with both bounds set, export is enabled iff none is running and some order is in range |
| EstadisticasVentas.ExportWithoutRange | client/src/components/EstadisticasVentas.tsx:74 | without both bounds and with orders, export is enabled iff none is running |
| EstadisticasPage.MuestraCargando | client/src/pages/EstadisticasPage.tsx:42-44 | the loader shows only while loading and while some data set has not arrived |
| EstadisticasPage.Mostrar | client/src/pages/EstadisticasPage.tsx:33-63 | loader, or an empty message ("no orders" iff there are none at all) when the filter keeps nothing, or the statistics over the non-empty filtered list |
| EstadisticasPage.SinOrdenesEnRangoMeans | client/src/pages/EstadisticasPage.tsx:58-62 | "none in range" appears iff loaded, both bounds set, orders exist and none of them is in range |
| EstadisticasPage.SinRangoMuestraTodo | client/src/pages/EstadisticasPage.tsx:33-36 | once loaded, with orders and without both bounds, every order is shown |
| GraficaProductosMasVendidos.AcumularProductos | client/src/components/estadisticas/GraficaProductosMasVendidos.tsx:48-58 | one entry per product name met, with its quantity and sales sums and the first order's category |
| GraficaProductosMasVendidos.Visitar | client/src/components/estadisticas/GraficaProductosMasVendidos.tsx:49-57 | one visit adds exactly the order's name |
| GraficaProductosMasVendidos.VisitarCorrect | client/src/components/estadisticas/GraficaProductosMasVendidos.tsx:48-58 | one `forEach` step keeps the dictionary equal to the per-name figures of the orders seen |
| GraficaProductosMasVendidos.VisitedKeys | client/src/components/estadisticas/GraficaProductosMasVendidos.tsx:49-55 | after a visit the names are those of the orders seen |
| GraficaProductosMasVendidos.VisitedOwn | client/src/components/estadisticas/GraficaProductosMasVendidos.tsx:49-57 | the visited name grows by that order, and its category is fixed by the name's first order |
| GraficaProductosMasVendidos.VisitedOthers | client/src/components/estadisticas/GraficaProductosMasVendidos.tsx:48-58 | other names keep their figures |
| GraficaProductosMasVendidos.OtherProductoKept | client/src/components/estadisticas/GraficaProductosMasVendidos.tsx:56-57 | an order of another name changes nothing for a name |
| GraficaProductosMasVendidos.GroupIffKey | client/src/components/estadisticas/GraficaProductosMasVendidos.tsx:49 | a name has orders iff it is among the keys |
| GraficaProductosMasVendidos.Entradas | client/src/components/estadisticas/GraficaProductosMasVendidos.tsx:60-66 | one row per name, in first-occurrence order |
| GraficaProductosMasVendidos.PorCantidadIsOrder | client/src/components/estadisticas/GraficaProductosMasVendidos.tsx:67 | "larger quantity first" is a total preorder |
| GraficaProductosMasVendidos.Top | client/src/components/estadisticas/GraficaProductosMasVendidos.tsx:68 | a prefix of at most 8 rows, the whole list when it is shorter |
| GraficaProductosMasVendidos.Datos | client/src/components/estadisticas/GraficaProductosMasVendidos.tsx:39-69 | the chart data is the top 8 of the ranking |
| GraficaProductosMasVendidos.RankingRows | client/src/components/estadisticas/GraficaProductosMasVendidos.tsx:48-67 | exactly one row per product name that occurs, each with that name's figures |
| GraficaProductosMasVendidos.CategoriaFromFirstOrder | client/src/components/estadisticas/GraficaProductosMasVendidos.tsx:49-55 | a row's category is the first order's category with that name, or "Sin categoría" |
| GraficaProductosMasVendidos.RankingOrdered | client/src/components/estadisticas/GraficaProductosMasVendidos.tsx:67 | the ranking is a permutation of the rows, quantities non-increasing |
| GraficaProductosMasVendidos.TopIsBest | client/src/components/estadisticas/GraficaProductosMasVendidos.tsx:67-68 | no product left out of the top 8 sold more than one shown |
| GraficaProductosMasVendidos.RankingSums | client/src/components/estadisticas/GraficaProductosMasVendidos.tsx:48-67 | the ranking's quantities and sales add up to those of all orders |
| GraficaVentasPorDia.AcumularDias | client/src/components/estadisticas/GraficaVentasPorDia.tsx:32-38 | one entry per date met, with that day's sales sum and order count |
| GraficaVentasPorDia.Visitar | client/src/components/estadisticas/GraficaVentasPorDia.tsx:33-37 | one visit adds exactly the order's date |
| GraficaVentasPorDia.VisitarCorrect | client/src/components/estadisticas/GraficaVentasPorDia.tsx:32-38 | one `forEach` step keeps the dictionary equal to the per-day figures of the orders seen |
| GraficaVentasPorDia.OwnDay | client/src/components/estadisticas/GraficaVentasPorDia.tsx:33-37 | the visited day grows by exactly that order |
| GraficaVentasPorDia.OtherDays | client/src/components/estadisticas/GraficaVentasPorDia.tsx:32-38 | other days keep their figures |
| GraficaVentasPorDia.Puntos | client/src/components/estadisticas/GraficaVentasPorDia.tsx:40-49 | one point per date, in first-occurrence order |
| GraficaVentasPorDia.PorFechaIsOrder | client/src/components/estadisticas/GraficaVentasPorDia.tsx:50 | the date comparison is a total preorder |
| GraficaVentasPorDia.Datos | client/src/components/estadisticas/GraficaVentasPorDia.tsx:27-51 | the chart data is the points sorted by date |
| GraficaVentasPorDia.DatosRows | client/src/components/estadisticas/GraficaVentasPorDia.tsx:32-50 | one point per date that occurs and no other, with that day's figures, in strictly ascending date order |
| GraficaVentasPorDia.DatosCountOrders | client/src/components/estadisticas/GraficaVentasPorDia.tsx:37 | the points' order counts add up to the number of orders |
| GraficaVentasPorDia.DatosSumSales | client/src/components/estadisticas/GraficaVentasPorDia.tsx:36 | the points' sales add up to the total sales |
| GraficaVentasPorDia.UnDiaIffMismaFecha | client/src/components/estadisticas/GraficaVentasPorDia.tsx:68 | the single-day view shows iff there are orders and all share one date |
| GraficaVentasPorCategoria.AcumularVentas | client/src/components/estadisticas/GraficaVentasPorCategoria.tsx:21-24 | one entry per category key met (categoria or "Sin categoría"), holding that key's sales sum |
| GraficaVentasPorCategoria.Visitar | client/src/components/estadisticas/GraficaVentasPorCategoria.tsx:22-23 | one visit adds exactly the order's key |
| GraficaVentasPorCategoria.VisitarCorrect | client/src/components/estadisticas/GraficaVentasPorCategoria.tsx:21-24 | one `forEach` step keeps the dictionary equal to the per-key sales of the orders seen |
| GraficaVentasPorCategoria.OwnCategory | client/src/components/estadisticas/GraficaVentasPorCategoria.tsx:23 | the visited key grows by exactly that order's total |
| GraficaVentasPorCategoria.OtherCategories | client/src/components/estadisticas/GraficaVentasPorCategoria.tsx:21-24 | other keys keep their sums |
| GraficaVentasPorCategoria.Capitalizar | client/src/components/estadisticas/GraficaVentasPorCategoria.tsx:28 | same length, first character upper-cased, the rest unchanged |
| GraficaVentasPorCategoria.CapitalizarIdempotent | client/src/components/estadisticas/GraficaVentasPorCategoria.tsx:28 | capitalising twice is capitalising once |
| GraficaVentasPorCategoria.Porciones | client/src/components/estadisticas/GraficaVentasPorCategoria.tsx:26-30 | one slice per key, in first-occurrence order, labelled with the capitalised key |
| GraficaVentasPorCategoria.Datos | client/src/components/estadisticas/GraficaVentasPorCategoria.tsx:18-32 | the chart data is the slices sorted by sales, largest first |
| GraficaVentasPorCategoria.DatosRows | client/src/components/estadisticas/GraficaVentasPorCategoria.tsx:21-31 | one slice per key that occurs and no other, with that key's sales, in non-increasing order |
| GraficaVentasPorCategoria.DatosSum | client/src/components/estadisticas/GraficaVentasPorCategoria.tsx:23 | the slices' sales add up to the total sales |
| GraficaVentasPorCategoria.TwoKeys | client/src/components/estadisticas/GraficaVentasPorCategoria.tsx:22 | "postres" and "Postres" are two distinct keys |
| GraficaVentasPorCategoria.LabelsCanRepeat | client/src/components/estadisticas/GraficaVentasPorCategoria.tsx:22-28 | grouping happens before capitalising, so "postres" and "Postres" make two slices both labelled "Postres" |
| Menu.RecetasFiltradas | client/src/components/Menu.tsx:13-21 | "todos" keeps all; otherwise exactly the recipes whose lowercased category equals the lowercased choice, in order |
| Menu.CategoriasEnMinuscula | client/src/components/Menu.tsx:24 | each recipe's category lowercased, position by position |
| Menu.CategoriasDisponibles | client/src/components/Menu.tsx:23-26 | distinct, ascending, and exactly the lowercased categories of the recipes |
| Menu.OfferedCategoryNonEmpty | client/src/components/Menu.tsx:13-26 | choosing any offered category other than "todos" shows at least one recipe, and only recipes of that category |
| Menu.RecipeInOwnCategory | client/src/components/Menu.tsx:17-20 | a recipe is kept under its own category in any letter case |
| Toast.Sin | client/src/hooks/useToast.ts:19 | the list without the toasts of that id, the rest in order |
| Toast.SinAbsent | client/src/hooks/useToast.ts:18-20 | removing an id no toast has leaves the list unchanged |
| Toast.SinIdempotent | client/src/hooks/useToast.ts:18-20 | removing twice is removing once |
| Toast.ShowThenRemove | client/src/hooks/useToast.ts:13-20 | showing a toast and removing its id restores the list when no earlier toast had that id |
| Toast.Toasts.constructor | client/src/hooks/useToast.ts:11 | an empty list |
| Toast.Toasts.ShowToast | client/src/hooks/useToast.ts:13-16 | appends one toast with id = now and type "success" unless given |
| Toast.Toasts.RemoveToast | client/src/hooks/useToast.ts:18-20 | the list becomes `Sin` of the old list |
| NuevaOrden.Find | client/src/components/NuevaOrden.tsx:59 | none iff no ingredient has the id; otherwise an ingredient with it |
| NuevaOrden.CalcularMaxDisponible | client/src/components/NuevaOrden.tsx:55-68 | the loop's result equals `MaxDisponible` |
| NuevaOrden.MaxDisponible | client/src/components/NuevaOrden.tsx:55-68 | never negative; 99 when the dish lists no requirements |
| NuevaOrden.BoundMissing | client/src/components/NuevaOrden.tsx:60-63 | an unknown ingredient anywhere in the list forces the bound to 0 |
| NuevaOrden.MaxMissing | client/src/components/NuevaOrden.tsx:60-63 | a dish with an unknown ingredient gets maximum 0 |
| NuevaOrden.MinQuotient | client/src/components/NuevaOrden.tsx:64-65 | the least floor(stock / per-unit) over the requirements, attained by one of them |
| NuevaOrden.BoundIsMin | client/src/components/NuevaOrden.tsx:57-66 | for positive per-unit amounts, the running `Math.min` through the loop equals that least quotient |
| NuevaOrden.MaxIsQuotient | client/src/components/NuevaOrden.tsx:55-68 | the maximum is the least quotient, clipped at 0 |
| NuevaOrden.MaxIsTight | client/src/components/NuevaOrden.tsx:55-68 | the maximum is covered by every ingredient and one more unit is not |
| NuevaOrden.PuedeHacer | client/src/components/NuevaOrden.tsx:141-145 | false without a requirement list; otherwise true iff every requirement's ingredient exists with stock ≥ per-unit |
| NuevaOrden.Every | client/src/components/NuevaOrden.tsx:142-145 | `every` over the requirements, as its iff |
| NuevaOrden.PuedeHacerIffOne | client/src/components/NuevaOrden.tsx:55-68 | for a non-empty list of positive amounts, "can be made" iff the maximum is at least 1 |
| NuevaOrden.StockedForOne | client/src/components/NuevaOrden.tsx:141-145 | every ingredient covers one unit iff the least quotient is at least 1 |
| NuevaOrden.Clamp | client/src/components/NuevaOrden.tsx:76 | the result lies in [1, max(1, max)] and an amount already there is kept |
| NuevaOrden.SyncCantidades | client/src/components/NuevaOrden.tsx:70-80 | the effect keeps every old entry, clamps each dish's amount (1 when none) into its new range, the last dish with an id winning |
| NuevaOrden.SyncInRange | client/src/components/NuevaOrden.tsx:70-80 | after the effect every dish's amount is in its range |
| NuevaOrden.Incrementar | client/src/components/NuevaOrden.tsx:82-88 | one more but never above max (1 when max ≤ 0); other dishes unchanged; an in-range amount stays in range |
| NuevaOrden.Decrementar | client/src/components/NuevaOrden.tsx:90-96 | one less but never below 1; other dishes unchanged; an in-range amount stays in range |
| NuevaOrden.OnChangeCantidad | client/src/components/NuevaOrden.tsx:98-101 | whatever was typed (NaN, 0, fractions, infinities), the stored amount ends in [1, max(1, max)], and a typed in-range whole number is kept |
| NuevaOrden.RecetasFiltradas | client/src/components/NuevaOrden.tsx:22-46 | exactly the dishes passing the case-insensitive category filter (unless "todos") and the search on name or stocked ingredient names (unless blank), in order |
| NuevaOrden.LowerCategorias | client/src/components/NuevaOrden.tsx:50 | each dish's category (empty when missing) lowercased |
| NuevaOrden.CategoriasDisponibles | client/src/components/NuevaOrden.tsx:48-53 | distinct, ascending, exactly the non-empty lowercased categories |
| Inventario.PorCategoria | client/src/components/Inventario.tsx:52-57 | "todos" keeps all; otherwise exactly the ingredients whose category matches case-insensitively, in order |
| Inventario.PorBusqueda | client/src/components/Inventario.tsx:59-63 | a blank query keeps all; otherwise exactly those whose lowercased name contains the trimmed lowercased query |
| Inventario.IngredientesBajos | client/src/components/Inventario.tsx:65-68 | the low count over all ingredients: all of them iff every one is low, 0 iff none is |
| Inventario.CountLow | client/src/components/Inventario.tsx:66 | the filter is full iff every element is low, empty iff none is |
| Inventario.TotalPages | client/src/components/Inventario.tsx:70 | at least 1, and the fewest pages of 8 that hold the list |
| Inventario.ClampPage | client/src/components/Inventario.tsx:71 | always a page in 1..totalPages, and an in-range page is kept |
| Inventario.Page | client/src/components/Inventario.tsx:73-76 | at most 8 items: the slice from (page−1)·8, clipped at the end |
| Inventario.PageIsContiguous | client/src/components/Inventario.tsx:74-75 | item i of page p is list item (p−1)·8 + i |
| Inventario.PagesUpToPrefix | client/src/components/Inventario.tsx:73-76 | the first k pages together are the first 8k items |
| Inventario.PagesPartition | client/src/components/Inventario.tsx:70-76 | all pages together are the list, each item once and in order |
| Inventario.Visible | client/src/components/Inventario.tsx:52-76 | at most 8 items, all of them passing both filters |
| Inventario.InventarioView.constructor | client/src/components/Inventario.tsx:25-31 | category "todos", empty query, page 1 |
| Inventario.InventarioView.OnQueryOrFilterChange | client/src/components/Inventario.tsx:78-82 | a given query or category replaces the old one, and the page goes back to 1 |
| Inventario.InventarioView.Anterior | client/src/components/Inventario.tsx:271 | one page back, never below 1, filters unchanged |
| Inventario.InventarioView.Siguiente | client/src/components/Inventario.tsx:278-280 | one page on, never past the last, filters unchanged |
| HistorialOrdenes.Toggled | client/src/components/HistorialOrdenes.tsx:21-29 | the date flips membership and every other date keeps it |
| HistorialOrdenes.ToggleTwice | client/src/components/HistorialOrdenes.tsx:21-29 | toggling a date twice restores the set |
| HistorialOrdenes.HistorialView.constructor | client/src/components/HistorialOrdenes.tsx:16-19 | no bounds, category "todos", nothing expanded |
| HistorialOrdenes.HistorialView.ToggleDia | client/src/components/HistorialOrdenes.tsx:21-29 | the expanded set becomes `Toggled`, the filters are unchanged |
| HistorialOrdenes.Categorias | client/src/components/HistorialOrdenes.tsx:32 | each order's category, position by position |
| HistorialOrdenes.CategoriasDisponibles | client/src/components/HistorialOrdenes.tsx:31-34 | distinct, and exactly the non-empty categories that occur |
| HistorialOrdenes.OrdenesFiltradas | client/src/components/HistorialOrdenes.tsx:36-47 | exactly the orders in the inclusive date range (when both bounds are set) with the exact category (unless "todos"), in order |
| HistorialOrdenes.OrdenesPorFecha | client/src/components/HistorialOrdenes.tsx:54-61 | one group per date, each holding that date's orders in list order |
| HistorialOrdenes.OneGroupEach | client/src/components/HistorialOrdenes.tsx:56-58 | each order is in its own date's group and in no other |
| HistorialOrdenes.DayTotalsSum | client/src/components/HistorialOrdenes.tsx:49-52 | the day totals add up to `totalVentas` |
| HistorialOrdenes.Reverse | client/src/components/HistorialOrdenes.tsx:64 | position i holds the element at n−1−i |
| HistorialOrdenes.FechasOrdenadas | client/src/components/HistorialOrdenes.tsx:63-66 | each date with orders exactly once, newest (largest string) first |
| ModalReabastecer.RestockDialog.constructor | client/src/components/ModalReabastecer.tsx:18 | the amount starts at 10 |
| ModalReabastecer.RestockDialog.Incrementar | client/src/components/ModalReabastecer.tsx:30 | the amount rises by 1 |
| ModalReabastecer.RestockDialog.Decrementar | client/src/components/ModalReabastecer.tsx:31-32 | the amount drops by 1 but never below 1 |
| ModalReabastecer.TypedAmount | client/src/components/ModalReabastecer.tsx:103-105 | a typed whole number ≥ 1 is kept; anything unreadable, 0 or negative gives 1 |
| ModalReabastecer.RestockDialog.OnChange | client/src/components/ModalReabastecer.tsx:103-105 | the amount becomes `TypedAmount` of what was read |
| ModalReabastecer.RestockDialog.HandleConfirmar | client/src/components/ModalReabastecer.tsx:22-28 | a positive amount is confirmed for this ingredient, then the amount is reset to 10 and the dialog closes; the counter keeps it positive, so confirmation always happens |
| ModalReabastecer.ExitoIffLeavesLowSet | client/src/components/ModalReabastecer.tsx:34-35 | the success mark (line 134) shows iff the ingredient is low now and would no longer be low after the restock |

## Left out

**Infrastructure**
- MongoDB, mongoose models, connections and indexes are not modelled, and neither are the Express routes and `server.ts`. The repositories are in-memory classes. A duplicate key refused by the unique `id` index is a `DuplicateKey` error. That error surfaces as a generic error, as an unrecognised error does in the source.
- The clock reads of one order are independent instants. The model assumes no order between them, so it does not claim that the id, fecha and createdAt fall on one day (`CreateOrdenUseCase.FechaBeforeMidnight` shows they need not).
- Concurrency is not modelled. Every async call runs to completion in order, so the race between two requests that both pass `checkAvailability` before either deducts does not appear.
- `findToday` depends on the server's local time zone and is left out. `getTodayOrdenes` is a pass-through to it.
- `getAllIngredientes`, `getLowStockIngredientes`, `getAllRecetas`, `getRecetasByCategory`, `getAllOrdenes` and `deleteAllOrdenes` only forward to the repository, which is modelled. They have no members of their own.

**Server behaviour**
- The alert mail is out of scope: its HTML body, `Intl.NumberFormat` formatting, the recipient and nodemailer itself. Whether a send succeeds is a parameter.
- The `console` logging in the alert service and the use case is left out.
- `ALERT_STATE_FILE` is declared but never used.
- The deduction is not atomic. Its per-item `$inc` writes appear as one sequential loop over the map.
- EmailAlertService.AlertService.ForceAlert: when the send throws, the source rejects the returned promise, while the model reports `SendFailed`.
- JavaScript `Date` is only valid within ±8.64·10^15 ms, a range limit the model leaves out. `toISOString` throws outside that range. The model allows any integer instant, and the ISO-date lemmas need the year to be within ±999 999.

**Numbers and text**
- Stock amounts are integers and prices and totals are exact reals. IEEE-754 rounding and accumulated drift are left out, and so is NaN from non-numeric data. Order amounts are integers because the schema requires `.int()`. The `JsNumber` type covers only the values typed into the new-order amount box.
- Calculations.CalcularTotales: `promedioOrden` (calculations.ts:12) is left out, because it is `NaN` for an empty list. The cards' guarded average is modelled as `TarjetasEstadisticas.Promedio`.
- `toLowerCase`/`toUpperCase` map ASCII letters only. Unicode case mapping is not modelled, so "Á" and "á" do not match.
- Text.LexLess: string comparison (`<`, `>=`, `sort()`) in JavaScript compares UTF-16 code units, while `LexLe`/`LexLess` compare Unicode scalar values, because a Dafny `char` is a scalar value. The two orders agree on strings without characters above U+FFFF and can differ once one appears: JavaScript puts "😀" (first unit 0xD83D) before "！" (U+FF01), the model puts it after. This reaches every sort built on `LexLe`: `StringSets.SortedDistinct`, `Menu.CategoriasDisponibles`, `NuevaOrden.CategoriasDisponibles`, `HistorialOrdenes.FechasOrdenadas` and `GraficaVentasPorDia.PorFecha`. Dates produced by `getFechaHoraColombia` are ASCII digits and dashes, so the date sorts are unaffected for them. Locale collation in `localeCompare` is not modelled either.
- zod's own machinery is left out: type coercion, unknown keys and its exact issue order beyond one issue per broken rule. The zod `ZodError` becomes a list of issues with paths.
- `parseInt` in the restock dialog is an input: what was read, if anything.

**Client**
- The client's network services, `AppContext` and the page loaders' refresh effect are left out. EstadisticasPage.tsx lines 24-31 only trigger fetches.
- All rendering is left out. That covers JSX and the chart libraries, the day-month axis labels (`toLocaleDateString`), currency formatting, and the category chips and page components.
- The Excel and PDF export is left out. The `exportando` flag is a parameter of the view.
- Callbacks (`onReabastecer`, `onConfirmar`, `onClose`, `onProcesarOrden`) are modelled as returned values.
- `confirmarOrdenInline` in NuevaOrden.tsx (lines 103-111) is left out. It awaits the order and then resets that dish's amount to 1.
- `Object.entries` is modelled in first-insertion order. JavaScript lists integer-like keys, such as a date or name that is all digits, in ascending numeric order first. Keys that clash with `Object.prototype` members are not modelled either.
- HistorialOrdenes.CategoriasDisponibles: the order of the category chips (first appearance, from `new Set`) is not stated; the contract gives only distinctness and membership.
- NuevaOrden.MaxDisponible: the bound is modelled with integer floor division, with ±Infinity and NaN for a per-unit amount of 0. Fractional stock or per-unit amounts are not modelled.

## Findings

| source | as written | input that shows it | evidently intended | confidence | as-written member | corrected member |
|---|---|---|---|---|---|---|
| server/src/use-cases/CreateOrdenUseCase.ts:46-59 | the stock is deducted before the order is stored, and the order id is `ord-` + `Date.now()` (OrdenService.ts:23-25); a second order in the same millisecond gets a taken id, the insert fails, and the deduction stays | two orders of a recipe needing 2 of ingredient "1" (stock 5) whose `Date.now()` reads fall in the same millisecond 1000: the second passes the check, stock drops to 3, and the insert fails | a failed order leaves stock and order log as they were | not executed | CreateOrdenUseCase.Execute, CreateOrdenUseCase.SameMillisecondCollision | CreateOrdenUseCase.ExecuteAtomic |

## Observations

These are proved about the model but are not claimed as defects.
- **Duplicate requirement ids.** The availability check tests each requirement line alone. A recipe listing the same ingredient twice could therefore drive stock negative (`IngredienteService.DuplicateIdsGoNegative`). Recipes created through `createReceta` cannot list an ingredient twice, because the length comparison rejects them (`RecetaService.RepeatedIdRejected`). The rejection message is misleading: it names no missing ingredient.
- **What "today" means.** The alert's "once a day" uses the UTC date. Order dates use Colombia time. The two differ between 00:00 and 05:00 UTC (`EmailAlertService.TodaysDiffer`).
- **Repeated chart labels.** The category chart groups before it capitalises, so "postres" and "Postres" become two slices with the same label (`GraficaVentasPorCategoria.LabelsCanRepeat`).
