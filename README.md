# Vehicle rental ledger (SETPProj) in Dafny

A model of the record-keeping core of a console vehicle-rental shop. The shop keeps four
comma-separated text files: vehicles, customers, rentals and administrators. Each file has
a model class with `toCSV`/`fromCSV` and a service that loads, appends and rewrites it.

The model covers these parts:

- **Vehicles.** A vehicle has units that are reserved and given back. The
  `available` flag follows the unit count.
- **Customers.** A customer registers under a unique e-mail address and gets the next
  `C%03d` identifier. They sign in with a password that is trimmed and normalised. Each
  returned rental counts towards a BRONZE badge (10 rentals) or a SILVER badge (25
  rentals), and the badge sets how many rentals they may hold at once (1, 2 or 3).
- **Rentals.** A rental is created by reserving a unit of its vehicle. It is returned by
  marking it RETURNED, giving the unit back and crediting the customer. The income is
  the sum of the prices.
- **Administrators.** They sign in like customers. A default `A001/admin` account is
  written when the file has no administrator. New accounts get the next `A%03d`
  identifier.
- **The rent-a-vehicle step of the customer menu.** It refuses an unknown vehicle, a
  vehicle with no units, a customer at their allowance, and an end date before the start.
  Otherwise it prices the stay by whole days, both ends included, and adds the rental.

How the model is laid out:

- **Files.** Each service object holds its file as `lines: seq<string>`. `loadAll` is
  `Records.LoadRecords`: it skips blank lines and lines `fromCSV` rejects. `saveAll` and
  the other rewrites produce `Records.EncodeAll`. An append adds one line.
- **Classes and records.**
  - `Vehicle` and `Customer` have setters that change them in place, so they are classes.
    `Data()` is the record of their current field values.
  - `Rental` and `Admin` never change once built, so they are datatypes.
- **Java semantics modelled.**
  - `String.split(",")` drops trailing empty pieces; `split(",", -1)` keeps them.
  - `trim` removes characters up to U+0020.
  - `equalsIgnoreCase` compares ASCII letters case-insensitively.
  - `Integer.parseInt` reads ASCII digits and rejects values outside the `int` range, and `int` addition wraps.
  - `%03d`, `%b` and `Boolean.parseBoolean` are modelled as written.
  - `%.2f` rounds half-up with '.' as the decimal separator, and `Double.parseDouble` reads plain decimal text.
  - The limits of these choices are listed under "Left out".

The modules are:

- `Wrappers`, `Text`, `Numbers`: the Java library behaviour above.
- `Records`: load, rewrite, upsert and lookup.
- `Credentials`: the password comparison.
- `Vehicles`, `VehicleServices`, `Customers`, `CustomerServices`, `Rentals`,
  `RentalServices`, `Admins`, `AdminServices`: one pair per model and service.
- `RentalDesk`: the rent step of `Main.java`.

## Model

| member | source | states |
|---|---|---|
| Vehicles.Vehicle.constructor | VM/src/models/Vehicle.java:13-22 | the new vehicle holds exactly the eight given field values |
| Vehicles.Vehicle.SetAvailable | VM/src/models/Vehicle.java:31 | only the availability flag changes, to the given value |
| Vehicles.Vehicle.SetQuantity | VM/src/models/Vehicle.java:33 | the quantity becomes `q` and the flag becomes `q > 0`; nothing else changes, and afterwards `available == (quantity > 0)` |
| Vehicles.SetQuantityAt | VM/src/services/VehicleService.java:45 | setting the quantity of one vehicle of a loaded list (distinct objects) changes that list entry only |
| Vehicles.FromCSV | VM/src/models/Vehicle.java:39-59 | an accepted line gives a vehicle whose text fields are trimmed and comma-free |
| Vehicles.FromCSVRejectsShortLine | VM/src/models/Vehicle.java:40-42 | a line with fewer than seven pieces is rejected |
| Vehicles.FromCSVRejectsBadNumber | VM/src/models/Vehicle.java:48-49 | a year that does not parse as an `int`, or a rate that does not parse, makes the line rejected |
| Vehicles.FromCSVAccepts | VM/src/models/Vehicle.java:39-59 | a line is accepted exactly when it has at least seven pieces and its year and rate parse; a missing or unparsable eighth piece never rejects it |
| Vehicles.FromCSVFields | VM/src/models/Vehicle.java:44-55 | an accepted line yields its trimmed pieces: year and rate parsed, `available` true only for "true" in any case, quantity the eighth piece, or 1 if that piece is missing or does not parse |
| Vehicles.FromCSVOfToCSV | VM/src/models/Vehicle.java:35-59 | reading back a written vehicle gives the same vehicle, with the rate rounded to cents |
| Vehicles.FromCSVOfPieces | VM/src/models/Vehicle.java:39-55 | a line that splits into eight clean pieces is read as exactly those values |
| VehicleServices.VehicleService.LoadAll | VM/src/services/VehicleService.java:13-22 | gives fresh, distinct vehicle objects whose values are the file's non-blank lines that `fromCSV` accepts, in file order |
| VehicleServices.LoadVehicles | VM/src/services/VehicleService.java:13-22 | the loading loop: the objects' values are `LoadRecords(lines, decode)` |
| VehicleServices.VehicleService.SaveAll | VM/src/services/VehicleService.java:24-28 | the file becomes the lines `toCSV` writes for the list's current values, in order |
| VehicleServices.VehicleService.AddVehicle | VM/src/services/VehicleService.java:30-32 | the file gains the vehicle's line at its end and nothing else changes |
| VehicleServices.VehicleService.FindById | VM/src/services/VehicleService.java:34-37 | null exactly when no stored vehicle has that exact id; otherwise a fresh copy of the first such vehicle |
| VehicleServices.FindIndex | VM/src/services/VehicleService.java:34-37 | the search loop returns the first index whose id matches exactly, or the length when there is none |
| VehicleServices.VehicleService.DecrementQuantity | VM/src/services/VehicleService.java:39-52 | returns true exactly when the first vehicle with that id exists and has a unit. The file is rewritten only then, with that vehicle's unit taken |
| VehicleServices.DecrementFirst | VM/src/services/VehicleService.java:41-50 | the in-place loop changes the objects exactly as `Decremented` says, or not at all |
| VehicleServices.VehicleService.IncrementQuantity | VM/src/services/VehicleService.java:54-65 | the file is rewritten with one unit added to the first vehicle with that id (Java `int` wrap-around), or left alone if there is none |
| VehicleServices.IncrementFirst | VM/src/services/VehicleService.java:55-63 | the in-place loop changes the objects exactly as `Incremented` says |
| VehicleServices.DecrementAt | VM/src/services/VehicleService.java:39-52 | reservation succeeds exactly when the first match has quantity > 0. It lowers that quantity by one and keeps the flag consistent; every other field and vehicle is unchanged |
| VehicleServices.DecrementUnknownId | VM/src/services/VehicleService.java:39-52 | with no vehicle of that id, nothing is reserved |
| VehicleServices.IncrementWrites | VM/src/services/VehicleService.java:54-65 | giving a unit back writes exactly when some vehicle has that id |
| VehicleServices.IncrementAt | VM/src/services/VehicleService.java:54-65 | giving back adds one unit to the first match (below `int` max), keeps the flag consistent and changes nothing else |
| VehicleServices.DecrementTakesOneUnit | VM/src/services/VehicleService.java:39-52 | a successful reservation lowers the total units in stock by exactly one |
| VehicleServices.DecrementNeverNegative | VM/src/services/VehicleService.java:44 | a reservation never drives a non-negative quantity below zero |
| VehicleServices.UpdatesKeepIds | VM/src/services/VehicleService.java:39-65 | reserving or giving back never changes which vehicle a lookup by id finds |
| VehicleServices.DecrementThenIncrement | VM/src/services/VehicleService.java:39-65 | giving back a reserved unit restores the stock; the stock is fully restored when the flag was consistent to begin with |
| VehicleServices.TotalUnitsUpdate | VM/src/services/VehicleService.java:45 | replacing one vehicle changes the unit total by the difference of the two quantities |
| VehicleServices.StoredWellFormed | VM/src/services/VehicleService.java:13-22 | every loaded vehicle is well formed |
| VehicleServices.StoredOfSaved | VM/src/services/VehicleService.java:24-28 | loading a saved list gives each vehicle back, with its rate rounded to cents |
| VehicleServices.DecrementPersists | VM/src/services/VehicleService.java:39-52 | after a reservation is saved, the next load has the same vehicles with the same ids, and the reserved one has one unit fewer |
| Customers.Customer.constructor | VM/src/models/Customer.java:14-20 | a new customer has the given fields, no completed rentals and an empty badge |
| Customers.Customer.WithHistory | VM/src/models/Customer.java:22-30 | the full constructor stores the count and a null badge as the empty badge |
| Customers.Customer.SetName | VM/src/models/Customer.java:39 | only the name changes |
| Customers.Customer.SetEmail | VM/src/models/Customer.java:40 | only the e-mail changes |
| Customers.Customer.SetPhone | VM/src/models/Customer.java:41 | only the phone changes |
| Customers.Customer.SetPassword | VM/src/models/Customer.java:42 | only the password changes |
| Customers.Customer.SetCompletedRentals | VM/src/models/Customer.java:43 | only the completed-rental count changes |
| Customers.Customer.SetBadge | VM/src/models/Customer.java:44 | only the badge changes |
| Customers.Customer.Equals | VM/src/models/Customer.java:69-75 | two customers are equal exactly when the other is non-null with the same e-mail |
| Customers.EqualsIsEquivalence | VM/src/models/Customer.java:69-75 | customer equality is reflexive, symmetric and transitive |
| Customers.FromCSV | VM/src/models/Customer.java:50-67 | an accepted line gives trimmed, comma-free fields with a password and a badge |
| Customers.FromPieces | VM/src/models/Customer.java:53-66 | a customer is built exactly for 4, 5 or at least 7 pieces |
| Customers.FromCSVByFieldCount | VM/src/models/Customer.java:50-67 | rejected exactly for fewer than 4 or exactly 6 pieces of `split(",", -1)`. 4 pieces give an empty password; 5 pieces or an unparsable count give count 0 and an empty badge; otherwise the count and badge come from pieces 6 and 7 |
| Customers.FromCSVOfToCSV | VM/src/models/Customer.java:46-67 | reading back a written customer gives the customer, a null password or badge read as empty |
| Customers.FromCSVOfPieces | VM/src/models/Customer.java:50-57 | a line of seven clean pieces is read as exactly those values |
| Customers.RereadLoaded | VM/src/models/Customer.java:46-67 | a customer as the loader produces it is unchanged by a write and a read |
| CustomerServices.CustomerService.LoadAll | VM/src/services/CustomerService.java:15-25 | fresh, distinct customer objects holding the accepted non-blank lines, in file order |
| CustomerServices.LoadCustomers | VM/src/services/CustomerService.java:15-25 | the loading loop: the objects' values are `LoadRecords(lines, decode)` |
| CustomerServices.CustomerService.SaveAll | VM/src/services/CustomerService.java:27-31 | the file becomes the written lines of the list's current values |
| CustomerServices.CustomerService.Register | VM/src/services/CustomerService.java:33-47 | with an e-mail already stored (any letter case) it reports "Email already registered: " and writes nothing. Otherwise it appends a new customer with id `C` plus the stored count + 1, three digits |
| CustomerServices.RegisterPersists | VM/src/services/CustomerService.java:33-43 | for trimmed, comma-free fields: after registering, the next load has the old customers plus the new one; the e-mail is then taken and a lookup of it finds the new customer |
| CustomerServices.RegisterThenAuthenticate | VM/src/services/CustomerService.java:33-73 | for trimmed, comma-free fields: a newly registered customer signs in with the same e-mail and password |
| CustomerServices.RegisterCommaNameShiftsFields | VM/src/services/CustomerService.java:33-43 | `register` accepts the name "a,b" and writes it unescaped; the next load reads the customer with every field after the name moved one place on (e-mail "b"), so the registered e-mail is no longer taken |
| CustomerServices.CustomerService.Authenticate | VM/src/services/CustomerService.java:49-73 | finds the last stored customer whose e-mail matches in any case; succeeds exactly when the trimmed, normalised passwords (null read as empty) are equal |
| CustomerServices.AuthenticateIn | VM/src/services/CustomerService.java:50-73 | the sign-in loop over the loaded objects agrees with `Authenticated` |
| CustomerServices.LastMatch | VM/src/services/CustomerService.java:52-56 | the loop keeps the last object whose key matches in any case |
| CustomerServices.CustomerService.FindById | VM/src/services/CustomerService.java:75-82 | a null id finds nothing; otherwise the first stored customer whose id matches in any case |
| CustomerServices.FirstMatch | VM/src/services/CustomerService.java:78-80 | the search loop returns the first index whose key matches in any case |
| CustomerServices.CustomerService.UpdateCustomer | VM/src/services/CustomerService.java:84-94 | the file is rewritten with every customer whose id matches (any case) replaced by the update, or the update appended if none matched |
| CustomerServices.UpsertObjects | VM/src/services/CustomerService.java:86-93 | the replace-or-append loop computes `Upsert` |
| CustomerServices.UpdatePersists | VM/src/services/CustomerService.java:84-94 | for an update with trimmed, comma-free fields: after it, the next load is the upsert of the re-read customer, and a lookup by its id finds it |
| CustomerServices.CustomerService.IncrementCompletedRentals | VM/src/services/CustomerService.java:96-112 | the file is rewritten with the first customer whose id matches in any case bumped, or left alone if none matches |
| CustomerServices.BumpFirst | VM/src/services/CustomerService.java:98-110 | the in-place loop bumps exactly the first matching object, or none |
| CustomerServices.BumpAt | VM/src/services/CustomerService.java:101-107 | one bump sets the count to count + 1 (wrapping) and the badge SILVER at 25, BRONZE at 10, otherwise empty |
| CustomerServices.BumpedWrites | VM/src/services/CustomerService.java:96-112 | the bump writes exactly when some stored id matches in any case |
| CustomerServices.BumpedAt | VM/src/services/CustomerService.java:96-112 | the first match gets one more completed rental (below `int` max) and the badge its count earns; every other customer and field is unchanged |
| CustomerServices.BumpPersists | VM/src/services/CustomerService.java:96-112 | the bumped list, once saved, loads back unchanged |
| CustomerServices.StoredOfSavedLoaded | VM/src/services/CustomerService.java:27-31 | loaded customers, once saved, load back unchanged |
| CustomerServices.StoredOfSaved | VM/src/services/CustomerService.java:27-31 | any well-formed customers, once saved, load back as their re-read forms |
| CustomerServices.AllowedConcurrentRentals | VM/src/services/CustomerService.java:114-120 | the allowance is between 1 and 3, and 1 for a null customer or badge |
| CustomerServices.AllowanceOfBadge | VM/src/services/CustomerService.java:114-120 | for any stored badge text: 3 when it equals SILVER in any case, 2 when it equals BRONZE in any case, 1 otherwise or when there is no badge |
| CustomerServices.AllowanceDependsOnBadgeOnly | VM/src/services/CustomerService.java:114-120 | two customers whose badges are equal ignoring case (or both absent) get the same allowance, whatever their other fields |
| CustomerServices.AllowanceOfEarnedBadge | VM/src/services/CustomerService.java:114-120 | for the badge a count earns: 3 from 25 rentals, 2 from 10, otherwise 1 |
| CustomerServices.BumpNeverLowersAllowance | VM/src/services/CustomerService.java:96-120 | another completed rental never lowers the allowance |
| Credentials.ComparePasswords | VM/src/services/CustomerService.java:58-71 | the sign-in comparison decides `PasswordsMatch`, whose properties the three lemmas below state |
| Credentials.NullPasswordIsEmpty | VM/src/services/CustomerService.java:58-59 | a null password, stored or given, matches exactly as the empty password does |
| Credentials.SurroundingSpacesIgnored | VM/src/services/CustomerService.java:62-63 | leading and trailing spaces of either password never change the outcome |
| Credentials.PasswordsMatchIsEquivalence | VM/src/services/CustomerService.java:58-70 | the comparison is reflexive, symmetric and transitive, so every password matches itself |
| Rentals.FromCSV | VM/src/models/Rental.java:34-49 | an accepted line gives a rental with trimmed, comma-free text fields |
| Rentals.FromCSVCases | VM/src/models/Rental.java:34-49 | rejected exactly for fewer than seven pieces or an unparsable price; otherwise the first seven pieces, trimmed |
| Rentals.FromCSVOfToCSV | VM/src/models/Rental.java:30-49 | a written rental with a status reads back as itself, its price rounded to cents |
| Rentals.FromCSVOfPieces | VM/src/models/Rental.java:34-49 | a line of seven clean pieces is read as exactly those values |
| Rentals.EmptyStatusIsLost | VM/src/models/Rental.java:30-42 | a rental with an empty status writes a line that the loader rejects |
| RentalServices.RentalService.constructor | VM/src/services/RentalService.java:11-45 | the service holds the given rentals file (line 11) and the vehicle and customer services that `addRental` and `returnRental` build at lines 26, 43 and 45 |
| RentalServices.RentalService.LoadAll | VM/src/services/RentalService.java:13-22 | the rentals of the file's accepted non-blank lines, in order |
| RentalServices.RentalService.AddRental | VM/src/services/RentalService.java:24-30 | first tries to take a unit of the vehicle. On success the rental's line is appended; on failure it reports "No vehicles available for id: " and the rentals file is unchanged |
| RentalServices.AddPersists | VM/src/services/RentalService.java:24-30 | after an add, the next load gains the rental at the end and the income grows by its price in cents |
| RentalServices.RentalService.ReturnRental | VM/src/services/RentalService.java:32-55 | with no RENTED rental of that id, no file changes. Otherwise the first one is marked RETURNED and the rentals file rewritten, a unit of its vehicle is given back, and its customer is bumped |
| RentalServices.FindReturnable | VM/src/services/RentalService.java:35-36 | the search loop finds the first rental with that exact id whose status is RENTED in any case |
| RentalServices.FirstReturnable | VM/src/services/RentalService.java:35-36 | the position found has that id and is RENTED, and no earlier one is |
| RentalServices.ReturnedShape | VM/src/services/RentalService.java:32-55 | a return acts exactly when such a rental exists; only its status changes, to RETURNED, and it is no longer returnable |
| RentalServices.ReturnTwice | VM/src/services/RentalService.java:32-55 | a second return of the same id can only hit a later rental; with unique ids it does nothing |
| RentalServices.ReturnKeepsIncome | VM/src/services/RentalService.java:32-61 | a return does not change the total income |
| RentalServices.ReturnPersists | VM/src/services/RentalService.java:32-55 | the rewritten rentals file loads back as the returned list, with the same income |
| RentalServices.StoredOfSaved | VM/src/services/RentalService.java:50-53 | well-formed rentals that have a status and a price in whole cents load back unchanged |
| RentalServices.ReturnedRewritable | VM/src/services/RentalService.java:38-41 | marking a rental RETURNED keeps the list well formed and rewritable |
| RentalServices.IncomeUpdate | VM/src/services/RentalService.java:57-61 | replacing one rental changes the income by the difference of the two prices |
| RentalServices.RentalService.TotalIncome | VM/src/services/RentalService.java:57-61 | the income is the sum of all loaded prices, whatever their status |
| Admins.FromCSV | VM/src/models/Admin.java:22-28 | an accepted line gives trimmed, comma-free fields and a password |
| Admins.FromCSVCases | VM/src/models/Admin.java:22-28 | rejected exactly for fewer than three pieces of `split(",")`; otherwise the first three, trimmed |
| Admins.FromCSVOfToCSV | VM/src/models/Admin.java:18-28 | a written administrator reads back as itself exactly when its password is non-empty; otherwise the line is rejected |
| AdminServices.AdminService.constructor | VM/src/services/AdminService.java:14-19 | a new service has the file with the default administrator ensured |
| AdminServices.AdminService.EnsureDefaultAdmin | VM/src/services/AdminService.java:52-58 | appends `A001,admin,admin123` exactly when no administrator loads |
| AdminServices.DefaultAdminPersists | VM/src/services/AdminService.java:52-58 | at least one administrator loads afterwards; from an empty store exactly the default one; ensuring twice equals ensuring once |
| AdminServices.DefaultAdminSignsIn | VM/src/services/AdminService.java:32-58 | on a store with no administrator, `admin`/`admin123` signs in, the name in any case |
| AdminServices.DefaultAdminWellFormed | VM/src/services/AdminService.java:57 | the default administrator has trimmed, comma-free fields and a non-empty password, the conditions under which Admins.FromCSVOfToCSV reads its line back unchanged |
| AdminServices.AdminService.LoadAll | VM/src/services/AdminService.java:21-30 | the administrators of the accepted non-blank lines, in order |
| AdminServices.AdminService.Authenticate | VM/src/services/AdminService.java:32-50 | takes the last administrator whose username matches in any case; succeeds exactly when the trimmed, normalised passwords are equal |
| AdminServices.LastUsernameMatch | VM/src/services/AdminService.java:35-38 | the loop keeps the last administrator whose username matches in any case |
| AdminServices.AdminService.AddAdmin | VM/src/services/AdminService.java:60-67 | an exact-case username clash reports "username exists" and writes nothing; otherwise a new administrator `A` plus count + 1 (three digits) is appended |
| AdminServices.ExactUsernameMatch | VM/src/services/AdminService.java:62 | the search answers whether some username equals the given one exactly |
| AdminServices.AddPersists | VM/src/services/AdminService.java:60-67 | for a trimmed, comma-free username and password: the next load gains the new administrator if it has a non-empty password, and nothing otherwise |
| AdminServices.AddThenAuthenticate | VM/src/services/AdminService.java:32-67 | a newly added administrator with a trimmed, comma-free username and a trimmed, comma-free, non-empty password signs in with that password, the name in any case |
| AdminServices.LastIsNewest | VM/src/services/AdminService.java:35-38 | the last username match in a list ending with a match is that last entry |
| AdminServices.AdminService.UpdateAdmin | VM/src/services/AdminService.java:69-81 | the file is rewritten with every administrator whose id matches (any case) replaced, or the update appended |
| AdminServices.UpsertAdmins | VM/src/services/AdminService.java:71-77 | the replace-or-append loop computes `Upsert` |
| AdminServices.UpdatePersists | VM/src/services/AdminService.java:69-81 | for an update with trimmed, comma-free fields: the next load is the upsert with the password-less administrators dropped |
| AdminServices.UpdateKeepsAll | VM/src/services/AdminService.java:69-81 | for an update with trimmed, comma-free fields, when every administrator has a password, the next load is the upsert, and a lookup by id finds the update |
| Records.LoadRecords | VM/src/services/VehicleService.java:13-22 | a load returns at most one record per line |
| Records.LoadAfterAppend | VM/src/services/VehicleService.java:30-32 | appending a line adds its record to the load when it is non-blank and accepted, and nothing otherwise |
| Records.LoadOfEncoded | VM/src/services/VehicleService.java:24-28 | rewriting records whose lines are non-blank and read back gives the read-back records |
| Records.LoadOfEncodedKept | VM/src/services/AdminService.java:69-82 | rewriting records some of which the reader rejects loads exactly the kept ones, in order |
| Records.LoadedSatisfy | VM/src/services/CustomerService.java:15-25 | every loaded record has any property all accepted lines give |
| Records.UpsertShape | VM/src/services/CustomerService.java:84-94 | the upsert keeps the length when some key matches (any case) and replaces exactly those entries; otherwise it appends the update |
| Records.UpsertThenFind | VM/src/services/CustomerService.java:84-94 | after an upsert, a lookup by the update's key finds the update |
| Records.UpsertIdempotent | VM/src/services/CustomerService.java:84-94 | upserting the same record twice equals upserting it once |
| Records.FirstIndexOfKey | VM/src/services/CustomerService.java:75-82 | the index found matches and no earlier one does; None means nothing matches |
| Records.LastIndexOfKey | VM/src/services/CustomerService.java:52-56 | the index found matches and no later one does; None means nothing matches |
| Numbers.ParseIntOfIntToString | VM/src/models/Vehicle.java:36-48 | `Integer.parseInt` reads back every `int` `%d` writes |
| Numbers.ParseDecimalOfFormatFixed2 | VM/src/models/Rental.java:30-42 | `Double.parseDouble` reads back what `%.2f` writes, as the value rounded half-up to cents |
| Numbers.ParseBoolOfFormatBool | VM/src/models/Vehicle.java:36-50 | `Boolean.parseBoolean` reads back what `%b` writes |
| Numbers.SequenceIdInjective | VM/src/services/CustomerService.java:45-47 | different counts give different generated ids |
| Numbers.Pad3Value | VM/src/services/CustomerService.java:45-47 | `%03d` gives at least three digits, and they denote the number |
| Text.SplitAllOfJoin | VM/src/models/Customer.java:46-51 | `split(",", -1)` undoes the comma join of comma-free fields |
| Text.SplitOfJoin | VM/src/models/Rental.java:30-35 | `split(",")` undoes the join when the last field is non-empty |
| Text.SplitOfJoinEmptyLast | VM/src/models/Admin.java:18-23 | with an empty last field, `split(",")` returns fewer pieces than were joined |
| Text.JoinNotBlank | VM/src/models/Vehicle.java:35-37 | a line joined from two or more fields, as every `toCSV` writes, is never blank, so a loader never skips it |
| Text.SplitAllOfCommaInField | VM/src/models/Customer.java:46-51 | a field `a,b` written by `String.join` comes back from `split(",", -1)` as the two pieces `a` and `b`, every later field one place on |
| RentalDesk.CountActive | Main.java:585-586 | the loop counts the customer's rentals (exact id) whose status is RENTED in any case |
| RentalDesk.Check | Main.java:580-620 | the checks in the source's order, on the stored files: unknown trimmed id, no units, allowance reached, end before start; otherwise the rental it proposes |
| RentalDesk.CreateRental | Main.java:580-639 | the result is `Plan` of the stores. A refusal writes nothing; a rental appends its line and takes one unit of its vehicle |
| RentalDesk.PlanCases | Main.java:580-639 | a rental is created exactly when the vehicle exists with a unit, the customer is under their allowance and start <= end. It is the customer's, for the trimmed id, RENTED, numbered `R` plus stored rentals + 1, priced at (end - start + 1) days times the rate, with at least one day; `addRental` never refuses it |
| RentalDesk.CreateKeepsLimit | Main.java:585-639 | after a rental is created, the customer's active count is one higher and still within their allowance |
| RentalDesk.ReturnFreesSlot | VM/src/services/RentalService.java:32-55 | a return lowers the active count of the rental's customer by one and of no one else |
| RentalDesk.ActiveUpdate | Main.java:585-586 | replacing one rental changes the active count by the difference of the two active tests |

## Left out

- File I/O is left out: `FileManager` (`safeRead`, `appendLine`, `overwrite`) and `IOException` are not modelled. Each file is a sequence of lines that reads and writes always succeed on, and `utils/FileManager.java` is not part of this model.
- `Normalizer.normalize(..., NFKC)` is the `normalize` function parameter. The exception it could throw is not modelled.
- Doubles are modelled as exact reals, so binary floating-point rounding is not captured. `%.2f` rounds half-up on the exact value. `Double.parseDouble` accepts only plain decimal text: no exponent, `NaN`, `Infinity`, hexadecimal form or type suffix.
- `equalsIgnoreCase` and `trim` are modelled for ASCII letters and for characters up to U+0020. Unicode case folding is not modelled.
- `String.format` uses the default locale of the JVM. The model assumes '.' as the decimal separator and ASCII digits. A locale with a ',' separator would write `%.2f` as an extra comma-separated piece, and every rewritten vehicle and rental line would then read back wrongly. That behaviour is not modelled.
- `Integer.parseInt` also accepts non-ASCII Unicode decimal digits. The model accepts only '0' to '9'.
- The file round-trip lemmas (Records.LoadOfEncoded and the StoredOfSaved lemmas) assume that no field contains a line break. A field holding '\n' or '\r' would split its line in two when the file is read. The model treats a file as a sequence of lines and does not capture that splitting. Fields typed at the console cannot contain a line break.
- `Vehicle.toString` and `Rental.toString` are display text and are not modelled.
- The menus of `Main.java` are not modelled: prompts, "back", the price shown, the yes/no confirmation and the pauses. Date entry (`tryParseDate`) is replaced by day numbers. `LocalDate.toString` is the `isoDate` function parameter.
- RentalDesk.CreateRental: takes the signed-in customer as a record rather than reading it from the console session. A failure of `addRental` other than the missing unit (an I/O error) cannot happen in the model.
- `returnRental` finds the rental's position with `list.indexOf`. Rental has no `equals`, so that search compares objects and finds the loop's own element. The model uses that position directly.
- Concurrent access to the files is not modelled. Neither are duplicate ids that several runs could write.
- AdminServices.AdminService.AddAdmin: a null username is not modelled. Usernames are strings, and `equals(null)` would simply find no clash.
- CustomerServices.CustomerService.Authenticate and AdminServices.AdminService.Authenticate: a null e-mail or username is not modelled. Keys are strings; in Java `equalsIgnoreCase(null)` is false, so no customer or administrator matches and the result is null, as for an unknown key (CustomerService.java:52-55, AdminService.java:34-37).
- RentalServices.RentalService.constructor: the Java class has no constructor and builds a new vehicle service and customer service on each call. The model passes the two services in once. Each service reads the same file either way, so the behaviour is the same.
- RentalServices.ReturnTwice: the "does nothing" half holds only when rental ids are unique, which nothing in the source enforces.
- RentalServices.ReturnPersists: stated only for rentals whose status is non-empty and whose price is in whole cents. A rewrite rounds any other price and drops a rental with an empty status (Rentals.EmptyStatusIsLost).
- RentalServices.StoredOfSaved: stated under the same restriction as ReturnPersists.
- VehicleServices.StoredOfSaved: the rate comes back rounded to cents, not unchanged.
- AdminServices.AddThenAuthenticate: stated only for a non-empty password. With an empty one the written line ends in a comma, `split(",")` drops the last piece, and the administrator never loads (AdminServices.AddPersists).
- AdminServices.UpdateKeepsAll: stated only when every administrator has a non-empty password, for the same reason (AdminServices.UpdatePersists states the general case).
- CustomerServices.RegisterPersists: stated only for trimmed, comma-free fields. The console rejects only an empty name, a name with a digit and an e-mail without the `.+@.+\..+` shape (Main.java:713-731), so a comma can get through. `toCSV` does not escape it, and the line reloads with its fields moved one place (CustomerServices.RegisterCommaNameShiftsFields).
- CustomerServices.RegisterThenAuthenticate: stated only for trimmed, comma-free fields, for the same reason.
- CustomerServices.UpdatePersists: stated only for an update with trimmed, comma-free fields. The profile edit at Main.java:840-849 accepts a name or e-mail with a comma, which reloads shifted in the same way.
- AdminServices.AddPersists: stated only for a trimmed, comma-free username and password; with a comma the line reloads shifted.
- AdminServices.AddThenAuthenticate: also stated only for a trimmed, comma-free username and password.
- AdminServices.UpdatePersists: stated only for an update with trimmed, comma-free fields. The username and password edits at Main.java:249-256 accept a comma, which reloads shifted.
- AdminServices.UpdateKeepsAll: also stated only for an update with trimmed, comma-free fields.
- VehicleServices.IncrementAt: the quantity is stated to rise by one only below the `int` maximum. At the maximum it wraps, as Java's `int` does.
- CustomerServices.BumpedAt: the same bound applies to the completed-rental count.
