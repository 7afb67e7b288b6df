# FoodRescue state layer in Dafny

This project models the persistence and in-memory state layer of the FoodRescue web application:

- **Donation repository** (`Repository`). It does create, read, update and delete on the `FoodDonations` table. The table is a class holding a map from the `Id` key to the seven other columns (`Row`), plus the table's identity counter, which stands for what `SCOPE_IDENTITY()` reports. Each method does what its SQL statement does:
  - the INSERT lists every column except `Id`;
  - the UPDATE and the DELETE match on `Id`, and their boolean result is "affected rows > 0".
- **Reservation ledger** (`Reservations`). It is an append-only list of `FoodReservation` values with a per-user query, `ViewReservations`. That query is the recursive filter `ForUser`, which is proved sound, complete with multiplicities, and order-preserving.
- **Analysis store** (`Analysis`). It is an append-only list of `FoodAnalysisResult` values with a read-only view and `Clear`.
- **Synthetic data generator** (`TestData`). The i-th record has `Id` i + 1. Its other fields are taken from fixed pick lists and from what the random-data library returns. Those library results are parameters. So is the clock reading that `Date.Recent(30)` takes for each record.
- **Records** (`Models`): `FoodDonation`, `FoodReservation` and `FoodAnalysisResult`, each with the defaults its C# initialisers give. The types are modelled as follows:
  - C# `int` is the subset type `Int32`;
  - `DateTime` is a tick count;
  - `Guid` is its 128-bit value.

`Scenario` holds client methods that rely only on these contracts. One seeds an empty table with three generated donations (ids 1, 2, 3). It then stores donation 2's data again, which gets identity 4, reads it back, deletes it, and finds it gone. The other two cover a session with each in-memory store.

The code's `FoodAnalysisStore.Add` assigns a `JsonTable` property that `FoodAnalysisResult` does not declare. The model gives the record a `jsonTable` field so that it agrees with the store; its default is assumed to be the empty string, like the other string properties. The code assigns no identifier to an analysis result and builds no parsed item list, so the model has neither. A donation's quantity can be negative and its pickup flag can be true from the start: neither `FoodDonation` nor the repository checks them, so `Create` and `Update` store any quantity and any flag.

## Model

| member | source | states |
|---|---|---|
| `Models.NewFoodDonation` | src/FoodRescue.Web/Models/FoodDonation.cs:3-13 | A new donation has `Id` 0, `Quantity` 0, `IsPickedUp` false, `DonationDate` the default tick 0, and the empty string in its four string properties |
| `Models.NewFoodReservation` | src/FoodRescue.Web/Models/FoodReservation.cs:3-10 | A new reservation refers to `Guid.Empty`, has an empty product and user, amount 0, and `ReservedAt` equal to the UTC clock reading at construction |
| `Models.NewFoodAnalysisResult` | src/FoodRescue.Web/Models/FoodAnalysisResult.cs:3-8 | A new result has an empty image, caption and JSON table, and `CreatedAt` equal to the local clock reading at construction |
| `Reservations.ForUser` | src/FoodRescue.Web/Services/ReservationService.cs:18 | The `FindAll` over the ledger returns only reservations whose `UserId` equals the query. It returns each matching reservation as many times as the ledger holds it, and keeps the ledger's order, as a subsequence |
| `Reservations.ForUserAppend` | src/FoodRescue.Web/Services/ReservationService.cs:11-19 | Filtering the ledger after an append gives the old filtered list, followed by the new reservation when its user matches |
| `Reservations.ForUserEmpty` | src/FoodRescue.Web/Services/ReservationService.cs:18-19 | The filter is empty exactly when no reservation in the ledger has that user identity |
| `Reservations.ReservationService.constructor` | src/FoodRescue.Web/Services/ReservationService.cs:7 | A new service starts with an empty ledger |
| `Reservations.ReservationService.Reservations` | src/FoodRescue.Web/Services/ReservationService.cs:9 | The view is exactly the ledger's contents, in insertion order, taken as a snapshot |
| `Reservations.ReservationService.AddReservation` | src/FoodRescue.Web/Services/ReservationService.cs:11-14 | The ledger becomes the old ledger followed by the reservation exactly as given, with no check and no field rewritten. The appending user's view gains that reservation at its end, and every other user's view is unchanged |
| `Reservations.ReservationService.ViewReservations` | src/FoodRescue.Web/Services/ReservationService.cs:16-20 | It returns only reservations of that user, all of them with their multiplicity, in insertion order. The result is empty (not null) exactly when the user has none. It only reads the ledger |
| `Analysis.FoodAnalysisStore.constructor` | src/FoodRescue.Web/Services/FoodAnalysisStore.cs:8 | A new store is empty |
| `Analysis.FoodAnalysisStore.Results` | src/FoodRescue.Web/Services/FoodAnalysisStore.cs:10 | The read-only view is exactly the stored results, in insertion order |
| `Analysis.FoodAnalysisStore.Add` | src/FoodRescue.Web/Services/FoodAnalysisStore.cs:13-21 | The store grows by exactly one entry and the earlier entries are unchanged and in order. The new last entry carries the given image, caption and JSON table, stamped with the construction-time clock |
| `Analysis.FoodAnalysisStore.Clear` | src/FoodRescue.Web/Services/FoodAnalysisStore.cs:24 | The store is empty afterwards, whatever its prior size, so clearing twice is the same as clearing once |
| `Repository.Columns` | src/FoodRescue.Web/Repositories/FoodDonationRepository.cs:38-57 | The parameters bound for the INSERT and the UPDATE carry every property of the donation except `Id`: the donation is rebuilt from them and its key |
| `Repository.Materialize` | src/FoodRescue.Web/Repositories/FoodDonationRepository.cs:30-31 | The donation read back from a row has that row's key as `Id` and exactly that row's seven columns |
| `Repository.ColumnsRoundTrip` | src/FoodRescue.Web/Repositories/FoodDonationRepository.cs:38-57 | The seven columns that the INSERT and UPDATE write from a donation, read back under the donation's own key, give the same donation again |
| `Repository.Scan` | src/FoodRescue.Web/Repositories/FoodDonationRepository.cs:22-23 | A donation is in the result of `SELECT *` exactly when the table maps its `Id` to its columns |
| `Repository.ScanCardinality` | src/FoodRescue.Web/Repositories/FoodDonationRepository.cs:22-23 | A full scan yields exactly as many donations as the table has rows |
| `Repository.FoodDonationRepository.constructor` | src/FoodRescue.Web/Repositories/FoodDonationRepository.cs:12-16 | A repository over a new, empty table whose identity counter is still at its assumed seed, 1 |
| `Repository.FoodDonationRepository.Over` | src/FoodRescue.Web/Repositories/FoodDonationRepository.cs:12-16 | A repository over an existing table, with whatever rows it holds and whatever identity it assigns next, provided every key was assigned earlier by that identity |
| `Repository.FoodDonationRepository.AffectedRows` | src/FoodRescue.Web/Repositories/FoodDonationRepository.cs:59-60 | A statement keyed by `WHERE Id = @Id` affects at most one row, and exactly one when a row has that key |
| `Repository.FoodDonationRepository.GetAll` | src/FoodRescue.Web/Repositories/FoodDonationRepository.cs:18-24 | It returns every row of the table, one donation per row, each with its key as `Id` and nothing else |
| `Repository.FoodDonationRepository.GetById` | src/FoodRescue.Web/Repositories/FoodDonationRepository.cs:26-32 | It returns the row with key `id` when one exists, with that key as `Id` and that row's columns, and otherwise `None` (null), which is not an error |
| `Repository.FoodDonationRepository.Create` | src/FoodRescue.Web/Repositories/FoodDonationRepository.cs:34-43 | It ignores the input's `Id` and returns the identity the table assigns, a key no row had before. Reading that key back gives the input with the new `Id`, and every other row is unchanged. When the identity would pass the largest `int`, it fails and the table is unchanged |
| `Repository.FoodDonationRepository.Update` | src/FoodRescue.Web/Repositories/FoodDonationRepository.cs:45-61 | It returns true exactly when a row with key `donation.Id` exists, and in that case replaces all seven non-key columns of that row. A missing key returns false and leaves the table unchanged. No key changes and no other row changes |
| `Repository.FoodDonationRepository.Delete` | src/FoodRescue.Web/Repositories/FoodDonationRepository.cs:63-70 | It returns true exactly when the key existed. Afterwards the key is absent and every other row is unchanged |
| `TestData.WellFormedDraw` | src/FoodRescue.Web/Services/TestDataService.cs:21-30 | The ranges the random-data library is taken to guarantee for one record: non-blank company name and address, picks inside the two lists, a quantity in 1..100, and a date offset within 30 days |
| `TestData.PickListsNotBlank` | src/FoodRescue.Web/Services/TestDataService.cs:22-27 | Every food-type category and every unit in the pick lists is a non-blank string |
| `TestData.Donation` | src/FoodRescue.Web/Services/TestDataService.cs:19-30 | The record at 0-based position i has `Id` i + 1, a food type from the nine categories, and a unit from the four units. Its quantity is in 1..100 and its date is within the 30 days before the clock reading taken for that record. Its donor, food type, unit and location are non-blank |
| `TestData.GenerateFoodDonations` | src/FoodRescue.Web/Services/TestDataService.cs:15-33 | It returns exactly `count` records with ids 1..count in order, so the ids are positive and pairwise distinct. Every quantity, food type, unit, date and string field is within the rules' ranges, each date relative to its own record's clock reading, and the pickup flag is the library's coin flip |
| `TestData.DatesWithinCallWindow` | src/FoodRescue.Web/Services/TestDataService.cs:28 | When every clock reading during the call lies between `start` and `end`, every donation date lies between 30 days before `start` and `end` |
| `TestData.GenerateDefaultFoodDonations` | src/FoodRescue.Web/Services/TestDataService.cs:15 | A call without a count generates 10 records, with ids 1..10 |

## Left out

- Repository.FoodDonationRepository.constructor: the C# constructor only stores its collaborators and works over whatever table exists. The unnamed constructor models a new table with `IDENTITY(1,1)`, and `Over` models an existing table.
- Repository.FoodDonationRepository.Create: assumes the identity increments by exactly 1 with no gaps, so consecutive inserts get consecutive keys. The schema is not part of this model. SQL Server does not promise consecutive values: failed inserts and the identity cache after a restart can skip some. Only two promises hold whatever the schema: the returned key is new, and it is the one read back.
- Logging, `async`/`Task`, Dapper and the connection factory (`DatabaseService`, with its missing-connection-string error) are left out. The repository's methods are synchronous operations on the table state.
- Repository.FoodDonationRepository.Create: assumes `DonationDate` is stored exactly as given. Without a registered type map, Dapper sends a `DateTime` as a SQL `datetime` parameter. That type covers only 1753-01-01 to 9999-12-31 and rounds to 1/300 second. So in the code, a donation dated from `DateTime.Now` reads back rounded, and a date outside the range throws an overflow; `new FoodDonation()`, with its tick-0 date, is one such case. The model stores any date unchanged and succeeds.
- Repository.FoodDonationRepository.Update: makes the same exact-`DonationDate` assumption as `Create`. In the code an updated date reads back rounded to 1/300 second, and an out-of-range date throws instead of returning a boolean.
- Repository.ColumnsRoundTrip: states the round trip under the same assumption. For a `DonationDate` that SQL `datetime` cannot hold exactly, the code reads back a rounded date and the round trip does not hold.
- Store failures other than identity overflow are not modelled: refused connections, timeouts, constraint violations, and the `datetime` range overflow above.
- Repository.FoodDonationRepository.GetAll: returns a set, because `SELECT *` without `ORDER BY` has no defined order. The order in which rows come back is therefore not modelled.
- Records are values, not the source's mutable, nullable objects with public setters. So the model does not capture entries shared between a caller, the list and a view, changes made through such a shared object, or null entries. The members affected follow:
- Reservations.ReservationService.AddReservation: it cannot be given null. In the code `List.Add(null)` succeeds, and every later `viewReservations` call then throws `NullReferenceException` at `r.UserId`. It also does not model a caller who keeps the added object and later changes its fields, which changes the ledger too.
- Reservations.ReservationService.ViewReservations: it returns values. `FindAll` copies the list but not its objects, so in the code a change to a returned reservation changes the ledger.
- Reservations.ReservationService.Reservations: it returns a snapshot. The code returns the live list behind an `IReadOnlyList` interface. A caller holding it sees later appends, and can cast it back to `List<T>` and change it.
- Analysis.FoodAnalysisStore.Results: it returns a snapshot. The code returns the live list, so a holder sees later `Add` and `Clear` calls, can cast it back to `List<T>`, and can set `Caption` and other properties of stored entries.
- Analysis.FoodAnalysisStore.Add: the stored entry is a value that no one else can reach or change. In the code it is an object that any caller of `Results` can change.
- The random-data library and the clock are parameters. A `Draw` holds the library's answers for one record, including the `DateTime.Now` reading that `Date.Recent(30)` takes for that record; the readings can differ from record to record. `WellFormedDraw` states the ranges the library is taken to guarantee, and `Date.Recent(30)` is taken to land in the closed window from 30 days before its clock reading to that reading.
- TestData.GenerateFoodDonations: `count` is a natural number. What the library does with a negative count is not part of this model.
- `NotBlank` counts only space, tab, newline and carriage return as white space. .NET's `char.IsWhiteSpace` recognises more characters.
- `DateTime` is an unbounded tick count. The exceptions .NET raises for dates outside its range are not modelled.
- Concurrency is not modelled. The ledger and the analysis store are unsynchronised shared lists in the code, and the model treats each operation as atomic. The `FoodDonations` table is shared with every other connection, but the model's repository owns its `rows` and assumes it is the only writer. Other sessions' inserts use up identity values, which is the usual source of the gaps mentioned under `Create`, and other writers can change or delete rows between two calls. The consecutive identities in `Scenario.SeedAndRoundTrip` hold only under that single-writer assumption.
- Three behaviours are absent from the code, so the model does not add them:
  - a fresh identifier per analysis result;
  - a parsed item list per analysis result;
  - any check of a reserved amount against available stock.
