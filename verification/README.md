# PetHub core in Dafny

PetHub is a pet-care web application: an Express/Mongoose backend with
pets, users and admins, saved payment cards, a product shop with orders,
and vet appointments, and a React frontend with a cart, a checkout page,
a registration form with a password-strength meter and a pet list. This
project models the rules of that application as pure functions over
immutable values:

- **Collections are sequences.** Each collection is a sequence of records in stored order, each keyed by a 24-hex-digit ObjectId.
- **Handlers return a reply and a store.** Every backend handler maps a collection and a request to a `Reply` (Ok 200, Created 201, or a failure: 400, 401, 403, 404 or 500 with its message) together with the collection afterwards.
- **Request bodies are JSON scalars.** Body fields are `Js.Value` (`undefined`, `null`, boolean, number or string), so JavaScript truthiness, `||` and `typeof` checks are modelled as the source uses them.
- **ObjectId casting is concrete.** Any 24 hex digits, in either case, name the id spelled in lower case. Anything else is a CastError, which each controller's `catch` block turns into its own status.
- **Client state is passed as values.** The frontend's React state and `localStorage` contents are values passed in and returned. A page's effect (what is stored, where it navigates) is a datatype.

The modules follow the source:

| module | models |
|---|---|
| `Js`, `Options`, `Seqs`, `Http` | JS values and strings (`toLowerCase`, `trim`, `includes`), filter/sort/limit, the reply envelope, ObjectId casting, lookups by id |
| `UserModel`, `PetModel`, `ProductModel`, `OrderModel`, `AppointmentModel` | the records and the schema's validators and defaults |
| `AuthMiddleware` | `protect` and `adminOnly` as decision functions |
| `PetController`, `AdminController`, `UserController`, `PaymentController`, `OrderController`, `AppointmentController`, `ProductController` | the backend handlers |
| `Cart`, `Shop`, `Checkout`, `PasswordStrength`, `PetsSection` | the frontend list logic |

## Model

| member | source | states |
|---|---|---|
| Http.CastId | backend/controllers/PetController.js:111 | A route id casts exactly when it is 24 hex digits; it then denotes the lower-case spelling, which is a stored-form id |
| Http.FindById | backend/controllers/PetController.js:111-118 | `findById` is a CastError exactly for a malformed id; otherwise it finds the record with that id or proves none has it |
| Http.FilterOutKey | backend/controllers/UserController.js:79 | In a collection with unique ids, removing by one record's id removes exactly that record and keeps the rest in order |
| Js.OrPicksFirstTruthy | backend/controllers/UserController.js:20-24 | `a \|\| b` is `a` when `a` is truthy and `b` otherwise, and is truthy iff either is |
| Js.NotPositiveNumberCases | backend/controllers/PetController.js:65 | The weight guard rejects a number exactly when it is ≤ 0; it accepts `true`, although `parseFloat(true)` is NaN; it rejects `undefined` |
| Js.TrimmedIsFixedPoint | backend/models/Pet.js:5-9 | A string is left alone by `trim` exactly when it neither starts nor ends with white space |
| Js.TrimIdempotent | backend/models/Pet.js:5-9 | Trimming twice is trimming once, so the schema's second trim changes nothing |
| Js.LowerIdempotent | backend/models/Pet.js:10-15 | Lower-casing twice is lower-casing once |
| PetModel.Cast | backend/models/Pet.js:4-31 | The schema accepts a record exactly when name and type are non-empty after their setters and the dates cast; the stored pet is valid, with the trimmed name, the trimmed lower-cased type and the weight as a String |
| PetModel.TrimLowerStable | backend/models/Pet.js:10-15 | Running the type setters twice gives what running them once gives |
| PetModel.ValidPetSettersStable | backend/models/Pet.js:5-15 | A stored pet's name and type are fixed points of the setters |
| PetModel.PetTypesStable | backend/controllers/PetController.js:73 | The four accepted types pass both setters unchanged |
| PetController.CheckBody | backend/controllers/PetController.js:57-79 | The three checks in source order: any falsy required field is "missing", then a weight that is NaN or ≤ 0, then a type outside the four; the first that fails decides the 400, and a 400 only comes from one of them. A type that is not a string throws (500). Past the checks the body is accepted iff name and owner name are strings |
| PetController.Build | backend/controllers/PetController.js:82-89 | A failed body check is passed on; a checked body that the schema casts is accepted as exactly the cast pet, and one it rejects is a 500 validation error |
| PetController.BuildNormalises | backend/controllers/PetController.js:82-89 | An accepted pet has the trimmed name, one of the four types, the trimmed owner name, a null vaccination date when the input was falsy, and the parsed weight |
| PetController.CreatePet | backend/controllers/PetController.js:52-102 | A missing field or a bad weight is a 400 and stores nothing; whenever the body checks and the schema casts it, the answer is 201 with the built pet and exactly that pet is appended |
| PetController.ValidBodyIsCreated | backend/controllers/PetController.js:52-102 | A body with every field present, a positive weight, one of the four types, a non-blank name and dates that cast is always created, and the store grows by exactly the answered pet |
| PetController.ZeroWeights | backend/controllers/PetController.js:57-70 | A numeric 0 weight is reported as a missing field; the string "0" reaches the weight check and fails it |
| PetController.TypeCheckedAfterWeight | backend/controllers/PetController.js:65-79 | With a bad type, a bad weight is still what is reported; only a good weight lets the type error through |
| PetController.UpdatePet | backend/controllers/PetController.js:107-165 | A malformed id is a 500 and an unknown id is a 404, whatever the body; otherwise the body is checked as for create, and whenever it builds, the found pet is replaced by the rebuilt one, keeping its id and creation time |
| PetController.UpdateLikeCreate | backend/controllers/PetController.js:145-152 | A successful update stores exactly what create would store for the same body, and every other pet is unchanged |
| PetController.DeletePet | backend/controllers/PetController.js:170-194 | An unknown id is a 404 and changes nothing; otherwise exactly that pet is removed and returned |
| PetController.CreateKeepsPetsValid | backend/controllers/PetController.js:82-89 | Creating under a fresh id keeps every pet schema-valid and the ids unique |
| PetController.UpdateKeepsPetsValid | backend/controllers/PetController.js:145-152 | An update keeps every pet schema-valid and the ids unique |
| PetController.DeleteKeepsPetsValid | backend/controllers/PetController.js:181 | A delete keeps every pet schema-valid and the ids unique |
| PetController.CreateThenDelete | backend/controllers/PetController.js:82-186 | Deleting the pet just created, by its new id, restores the collection |
| PetController.SearchPets | backend/controllers/PetController.js:199-230 | No query gives nothing. Otherwise min(20, number of matches) matching pets, newest first, each stored match at most as often as it is stored; a match is left out only when 20 pets at least as new are listed |
| PetController.SearchPetsDistinct | backend/controllers/PetController.js:211-217 | With unique pet ids, the search never lists a pet twice |
| PetController.GetPetsByType | backend/controllers/PetController.js:259-287 | The request succeeds iff the type, lower-cased, is one of the four; then the result is a reordering of exactly the stored pets of that type, each as often as stored, newest first. Otherwise a 400 |
| PetController.GetPetStats | backend/controllers/PetController.js:292-327 | The total, a per-type count that holds exactly the present types, and at most five summaries of stored pets, newest first; a pet left out of them is no newer than any listed one, and five are listed; with unique pet ids, no pet is listed twice |
| PetController.RecentPetsAreNewest | backend/controllers/PetController.js:314-317 | A pet left out of the recent five is no newer than any listed one, and five are listed |
| PetController.RecentPetsDistinct | backend/controllers/PetController.js:314-317 | With unique pet ids, no pet appears twice among the recent five |
| AuthMiddleware.Protect | backend/middleware/auth-middleware.js:4-32 | No token is a 401 "no token" and a failed verification a 401 "token failed"; a verified id naming no stored user is a 401 "user not found", and a malformed one is "token failed". The request proceeds exactly when the token names a stored user, and that user is attached without the password |
| AuthMiddleware.AdminOnly | backend/middleware/auth-middleware.js:34-43 | Proceeds iff a user is attached and is an admin; otherwise a 403 "Access denied. Admin only." |
| AuthMiddleware.AdminGate | backend/routes/AdminRoutes.js:13 | `protect` then `adminOnly`: an authentication failure is passed on unchanged; the request proceeds iff `protect` attaches an admin, with that user; an attached plain user gets the 403 |
| AuthMiddleware.AdminGateDecision | backend/routes/AdminRoutes.js:13 | Behind `protect` then `adminOnly`, a request passes iff its token names a stored admin. An authentication failure is reported as such; a plain user gets a 403 |
| UserModel.FindOneByEmail | backend/controllers/AdminControllers.js:19 | `findOne({ email })` finds a user with that email; with the email absent, the filter is dropped and any user matches |
| UserModel.PublicForgetsOnlyPassword | backend/controllers/AdminControllers.js:5 | `select('-password')` forgets exactly the password |
| AdminController.GetAllAdmins | backend/controllers/AdminControllers.js:3-13 | Exactly the admins, one entry per admin, none with a password |
| AdminController.CreateAdmin | backend/controllers/AdminControllers.js:15-49 | An email some user holds is a 400 "User already exists" and stores nothing; otherwise one admin account is appended and answered as id, name, email and role |
| AdminController.CreateAdminOutcome | backend/controllers/AdminControllers.js:19-41 | A created account is always an admin and the others are kept; an email already stored never yields a second account |
| AdminController.UpdateAdmin | backend/controllers/AdminControllers.js:51-94 | Success needs a stored admin and a free email when it changes; name and email are replaced only by truthy inputs |
| AdminController.UpdateAdminOutcome | backend/controllers/AdminControllers.js:56-77 | A missing or non-admin target is a 404, then a taken email is a 400. Success changes only name and email of the target; role, password and the other users stay |
| AdminController.UpdateAdminWithoutEmail | backend/controllers/AdminControllers.js:64-71 | A body without an email is refused as "Email already in use" whenever the admin has an email |
| AdminController.DeleteAdmin | backend/controllers/AdminControllers.js:96-127 | The caller's own id, in any spelling, is a 400 and deletes nothing. Any other id: malformed is a 500, unknown or not an admin is a 404, and a stored admin is removed, exactly that record, with success |
| AdminController.DeleteAdminAsWritten | backend/controllers/AdminControllers.js:96-127 | As written: the raw route id equal to the caller's is a 400 that deletes nothing; any other spelling goes to the lookup, which is a 500 when malformed, a 404 for no admin, and otherwise removes that admin |
| AdminController.DeleteAdminKeepsCaller | backend/controllers/AdminControllers.js:100-115 | After any delete the caller is still stored, and a success removes exactly one account |
| AdminController.GetDashboardStats | backend/controllers/AdminControllers.js:129-152 | Counts of plain users and of admins; at most five recent users, newest first, each the password-less form of a stored plain user, none twice when user ids are unique |
| AdminController.RecentUsersAreNewest | backend/controllers/AdminControllers.js:133-136 | A plain user left out of the recent list is no newer than any listed one, and five are listed |
| AdminController.RecentUsersStored | backend/controllers/AdminControllers.js:133-136 | Every recent entry is the password-less form of a stored plain user |
| AdminController.RecentUsersDistinct | backend/controllers/AdminControllers.js:133-136 | With unique user ids, no user appears twice among the recent ones |
| UserController.UpdateProfile | backend/controllers/UserController.js:4-46 | For a stored caller, success holds iff the body's email is the caller's own or held by nobody; otherwise a 400 "Email already in use" with nothing changed. On success the caller's record takes the merged fields, and the answer is that stored record, field for field, without the password |
| UserController.UpdateProfileFields | backend/controllers/UserController.js:20-38 | Each of the five fields takes a truthy input or keeps its value, so "" never clears one; id, role, password, cards and the other users stay |
| UserController.UpdateProfileEmailTaken | backend/controllers/UserController.js:10-18 | Taking another user's email is refused and changes nothing |
| UserController.UpdateProfileWithoutEmail | backend/controllers/UserController.js:10-18 | A body without an email is refused whenever the caller has an email |
| UserController.UpdatePassword | backend/controllers/UserController.js:48-75 | A wrong current password is a 401 and changes nothing; the right one for a stored caller always succeeds and replaces only the caller's password |
| UserController.UpdatePasswordOnlyPassword | backend/controllers/UserController.js:62-63 | A successful change sets the caller's password to the new one; every other field of the caller, the public form, and every other user are unchanged |
| UserController.DeleteAccount | backend/controllers/UserController.js:77-96 | No stored user keeps the caller's id and every other user stays; the session cookie is emptied, HTTP-only, expired at the epoch |
| UserController.DeleteAccountRemovesCaller | backend/controllers/UserController.js:79 | With unique ids exactly the caller's record is removed and the rest keep their order |
| UserController.SearchUsers | backend/controllers/UserController.js:98-120 | No query gives nothing. Otherwise min(10, number of matches) users: the first matches in stored order, each as its password-less form, a match being a name or email containing the query ignoring case |
| UserController.SearchUsersDistinct | backend/controllers/UserController.js:106-111 | With unique user ids, the search never lists a user twice |
| PaymentController.SaveCard | backend/controllers/paymentcontroller.js:4-17 | A falsy brand, last4, expMonth or expYear is a 400 that changes nothing; with all four truthy the card is saved iff the caller is stored, and is appended to the caller's list only |
| PaymentController.SaveCardAppends | backend/controllers/paymentcontroller.js:11-13 | The list grows by one at the end with the earlier cards as they were; other users are untouched |
| PaymentController.ListCards | backend/controllers/paymentcontroller.js:19-26 | The caller's list as stored |
| PaymentController.SaveCardThenList | backend/controllers/paymentcontroller.js:11-22 | Listing after a save shows the previous list followed by the new card |
| PaymentController.UpdateCard | backend/controllers/paymentcontroller.js:28-41 | An unknown card is a 404 and changes nothing; otherwise the found card is relabelled in the caller's list |
| PaymentController.UpdateCardOnlyLabel | backend/controllers/paymentcontroller.js:33-37 | Only the target card's label changes, and only to a supplied string; every other card, field and user stays |
| PaymentController.DeleteCard | backend/controllers/paymentcontroller.js:43-55 | An unknown card is a 404 and changes nothing; otherwise the caller's list loses exactly the cards with that id |
| PaymentController.DeleteCardRemovesExactly | backend/controllers/paymentcontroller.js:47-51 | With unique card ids, deleting removes exactly the matching card and keeps the order |
| PaymentController.SaveThenDeleteCard | backend/controllers/paymentcontroller.js:11-51 | Deleting a card just saved under a fresh id gives back the list as it was |
| ProductModel.NewProduct | backend/models/Product.js:3-11 | A product is accepted iff it has a non-empty name, a category from the four and a price ≥ 0; inStock defaults to true and stockQty to 0 |
| ProductController.ListProducts | backend/controllers/ProductController.js:3-14 | A reordering of exactly the products passing the category and name filters, each as often as stored, newest first |
| ProductController.ListWithoutFilters | backend/controllers/ProductController.js:6-9 | Without filters, every product, reordered newest first |
| ProductController.ListFiltersCombine | backend/controllers/ProductController.js:7-8 | Both filters together select exactly what each selects alone |
| ProductController.GetProduct | backend/controllers/ProductController.js:16-23 | Only a malformed id is a 404; a well-formed unknown id answers success with nothing |
| ProductController.CreateProduct | backend/controllers/ProductController.js:25-32 | A product the schema rejects is a 400 and stores nothing; a product it accepts, from a body without `_id` or timestamps, is answered 201 and exactly that product is appended |
| ProductController.Patch | backend/controllers/ProductController.js:36 | Each supplied field is overwritten and the others are kept |
| ProductController.UpdateProduct | backend/controllers/ProductController.js:34-41 | A malformed id is a 400 and an unknown id answers nothing; otherwise only the found product is patched |
| ProductController.UpdateSkipsValidation | backend/controllers/ProductController.js:36 | An update can store a negative price or an unknown category |
| ProductController.DeleteProduct | backend/controllers/ProductController.js:43-50 | Any well-formed id succeeds: the product with that id is removed, or nothing when there is none |
| ProductController.DeleteThenGet | backend/controllers/ProductController.js:18-45 | With unique ids, a product is no longer found after being deleted |
| OrderModel.StatusNameRoundTrip | backend/models/Order.js:14 | Every status round-trips through its enum spelling |
| OrderController.Assemble | backend/controllers/orderController.js:10-15 | A malformed product id fails the whole request. Otherwise the snapshots are those of the resolving lines, in order, and unresolved lines are skipped |
| OrderController.AssembleConcat | backend/controllers/orderController.js:11-15 | Assembling two runs of lines is assembling each and concatenating |
| OrderController.SnapshotsFromCatalogue | backend/controllers/orderController.js:12-14 | Every snapshot carries the id, name and price of a catalogue product |
| OrderController.CreateOrder | backend/controllers/orderController.js:4-21 | Items that are not a non-empty array are a 400. A malformed product id is a 500 cast error, and an absent or null total a 500 validation error; nothing is stored on any failure. Otherwise the order of the snapshots, the caller, the client's total and status Paid is answered 201 and appended |
| Checkout.CreateOrderStores | backend/controllers/orderController.js:4-21 | A non-empty list of lines without malformed ids and a present total always make an order, with the assembled snapshots |
| OrderController.CreatedOrderContents | backend/controllers/orderController.js:10-16 | One snapshot per resolving line, never more than the lines, none when none resolve; the caller owns the order, and it meets the schema when the ids are stored ones |
| OrderController.TotalNotRecomputed | backend/controllers/orderController.js:16 | Two requests differing only in the total store orders differing only in the total |
| OrderController.GetMyOrders | backend/controllers/orderController.js:23-30 | A reordering of exactly the caller's orders, each as often as stored, newest first |
| AppointmentModel.InitialStatus | backend/models/Appointment.js:34-38 | An absent status defaults to Pending; any other status must be one of the four, or `null` |
| AppointmentModel.NewAppointment | backend/models/Appointment.js:3-42 | A document is accepted iff the required strings are non-empty, the service is one of the five, the date casts and the status passes. The owner is the given one, and the record is valid when the owner is a stored id |
| AppointmentController.CreateAppointment | backend/controllers/AppointmentController.js:4-16 | A rejected document is a 400 and stores nothing; an accepted one, from a body without `_id` or timestamps, is answered 201 and exactly the schema's appointment, with the caller as owner, is appended |
| AppointmentController.CreateIgnoresBodyOwner | backend/controllers/AppointmentController.js:6-9 | Whatever `petOwner` the body holds, the outcome is the same |
| AppointmentController.GetUserAppointments | backend/controllers/AppointmentController.js:19-26 | Exactly the caller's appointments |
| AppointmentController.BookedAppearsInOwnList | backend/controllers/AppointmentController.js:4-21 | A new booking appears at the end of its owner's list, after the earlier ones |
| AppointmentController.GetAllAppointments | backend/controllers/AppointmentController.js:29-36 | Every appointment in order, each with its owner's name and email, or nothing when that user is gone |
| AppointmentController.UpdateAppointmentStatus | backend/controllers/AppointmentController.js:39-50 | A malformed id is a 400, and an unknown one answers success with nothing. Otherwise only the status of the found appointment changes, and an absent status changes nothing |
| AppointmentController.StatusUpdateUnchecked | backend/controllers/AppointmentController.js:41-45 | Any string is stored as a status, leaving the appointment outside the schema's enum |
| AppointmentController.AllAppointmentsGateAsWritten | backend/routes/AppointmentRoutes.js:14 | The full list is served to any request whose token names a stored user |
| AppointmentController.PlainUserReadsAllAppointments | backend/routes/AppointmentRoutes.js:14 | A plain user passes the route as mounted, and the intended admin gate refuses them with a 403 |
| AppointmentController.AllAppointmentsGate | backend/routes/AppointmentRoutes.js:14 | With `adminOnly` added, the full list is served iff the token names a stored admin |
| Cart.Load | frontend/src/pages/Cart.jsx:8-13 | The page shows the stored cart (an empty one when none is stored) and its total |
| Cart.LineTotal | frontend/src/pages/Cart.jsx:12 | `(i.price \|\| 0) * (i.qty \|\| 1)`: the price times the quantity, a quantity of 0 counting as 1 |
| Cart.Total | frontend/src/pages/Cart.jsx:12 | The `reduce` of the line amounts: one line totals its own amount, and prices and quantities that are not negative give a total that is not negative |
| Cart.TotalConcat | frontend/src/pages/Cart.jsx:12 | The total of two runs of lines is the sum of their totals |
| Cart.TotalReplace | frontend/src/pages/Cart.jsx:19 | Changing one line changes the total by that line's difference |
| Cart.TotalRemoveAt | frontend/src/pages/Cart.jsx:33 | Dropping one line takes its amount off the total |
| Cart.Inc | frontend/src/pages/Cart.jsx:15-20 | Lines with the id gain one unit and the rest are kept; the stored cart equals the shown one and the total is recomputed |
| Cart.Dec | frontend/src/pages/Cart.jsx:22-27 | Lines with the id lose one unit but stay at one or more, and the rest are kept; the stored cart equals the shown one and the total is recomputed |
| Cart.Remove | frontend/src/pages/Cart.jsx:29-34 | Exactly the lines without the id remain; the stored cart equals the shown one and the total is recomputed |
| Cart.IncThenDec | frontend/src/pages/Cart.jsx:15-27 | `dec` undoes `inc` on a cart whose lines all have a unit |
| Cart.ButtonsKeepQtyAtLeastOne | frontend/src/pages/Cart.jsx:16-23 | Raising and lowering keep every line at one unit or more |
| Cart.IncTotal | frontend/src/pages/Cart.jsx:16-19 | In a cart with one line per product, `inc` adds that product's price to the total |
| Cart.DecTotal | frontend/src/pages/Cart.jsx:23-26 | In a cart with one line per product, `dec` takes the price off the total, unless the line is at one unit |
| Cart.RemoveTotal | frontend/src/pages/Cart.jsx:30-33 | In a cart with one line per product, removing drops exactly that line and its amount |
| Shop.CategoryImage | frontend/src/pages/Shop.jsx:7-12 | A picture exists exactly for the four categories |
| Shop.FirstKeywordImage | frontend/src/pages/Shop.jsx:27-29 | Nothing iff no entry's keyword occurs in the name; otherwise the picture of the first entry that matches |
| Shop.GetProductImage | frontend/src/pages/Shop.jsx:24-31 | The product's own non-empty address wins; then the first keyword picture; then the category picture; the default is used iff all three are missing |
| Shop.KeywordBeatsCategory | frontend/src/pages/Shop.jsx:27-30 | A name hitting a table entry gets a keyword picture from that entry or an earlier one, never the category's |
| Shop.EarlierEntryWins | frontend/src/pages/Shop.jsx:14-16 | An illustration of table order on one input, not a general law: a product called "cat toy" gets the cat picture, not the toy picture |
| Shop.AddToCart | frontend/src/pages/Shop.jsx:45-56 | The first line with the product's id gains a unit and nothing else changes; without such a line the product is appended with one unit |
| Shop.AddToCartKeepsCartValid | frontend/src/pages/Shop.jsx:48-53 | One line per product and at least one unit per line are preserved |
| Shop.AddExistingIsInc | frontend/src/pages/Shop.jsx:48-50 | Adding a product already in the cart is the cart page's `inc` and adds its price to the total |
| Shop.AddNewTotal | frontend/src/pages/Shop.jsx:51-53 | Adding a new product appends one unit of it and adds its price to the total |
| Checkout.Load | frontend/src/pages/Checkout.jsx:21-25 | The checkout page loads the same cart and total as the cart page |
| Checkout.Lines | frontend/src/pages/Checkout.jsx:40 | One request line per cart line, in order, carrying its id and quantity |
| Checkout.PaymentCard | frontend/src/pages/Checkout.jsx:44 | A card is sent only for the "saved" method and a selection that exists |
| Checkout.HandlePay | frontend/src/pages/Checkout.jsx:35-49 | An empty cart does nothing. Otherwise the request carries the projected lines, the total, the shipping form, the method and the card that `PaymentCard` picks for it, and the cart is cleared with navigation to /orders |
| Checkout.CheckoutPlacesOrder | frontend/src/pages/Checkout.jsx:35-48 | When every cart product is in the catalogue, the stored order has one line per cart line in order, with cart quantities and current names and prices, and the total the page showed |
| PasswordStrength.Strength | frontend/src/pages/Register.jsx:155-169 | The score is in 0..4, 0 for an empty password, and the number of checks met capped at 4 |
| PasswordStrength.StrengthMonotone | frontend/src/pages/Register.jsx:160-166 | Typing more never lowers the score |
| PasswordStrength.LongMixedIsStrong | frontend/src/pages/Register.jsx:160-168 | Twelve characters with both cases and a digit score 4 |
| PasswordStrength.StrengthText | frontend/src/pages/Register.jsx:171-181 | A label for every score, never the empty default: "Very weak" iff 0, "Weak" iff 1, "Fair" iff 2, "Good" iff 3, "Strong" iff 4 |
| PasswordStrength.TextDeterminesScore | frontend/src/pages/Register.jsx:173-179 | Two passwords get the same label iff they get the same score |
| PasswordStrength.StrengthColor | frontend/src/pages/Register.jsx:183-188 | Red iff the score is ≤ 1, yellow iff 2, green iff ≥ 3 |
| PasswordStrength.Bars | frontend/src/pages/Register.jsx:361-369 | Four bars; bar i takes the colour iff i is below the score |
| PetsSection.FilteredPets | frontend/src/components/PetsSection.jsx:294-298 | A pet is listed iff the term occurs, ignoring case, in its name, type or owner name; only listed pets, in their order |
| PetsSection.EmptySearchShowsAll | frontend/src/components/PetsSection.jsx:294-298 | An empty search shows every pet, in order |
| PetsSection.AddPet | frontend/src/components/PetsSection.jsx:220-236 | The returned pet is appended at the end; a failed call leaves the list |
| PetsSection.UpdatePet | frontend/src/components/PetsSection.jsx:238-257 | As written: entries whose `id` equals the selected pet's `id` (possibly both undefined) become the returned pet; length and the other entries are kept |
| PetsSection.DeletePet | frontend/src/components/PetsSection.jsx:259-274 | As written: after a successful call exactly the entries whose `id` differs from the selected pet's `id` remain |
| PetsSection.AddThenDelete | frontend/src/components/PetsSection.jsx:227-265 | Deleting a pet just added under a fresh id gives back the list |
| PetsSection.UpdateKeepsIdsUnique | frontend/src/components/PetsSection.jsx:245-247 | An update answered with the selected id keeps one entry per id |
| PetsSection.DeleteRemovesSelected | frontend/src/components/PetsSection.jsx:265 | With one entry per `id` (only a list of pets created offline), a delete removes exactly the selected pet and keeps the order |
| PetsSection.FetchedListCollapses | frontend/src/components/PetsSection.jsx:244-265 | Offline, on a list restored from storage that an earlier fetch saved, no pet has an `id`, so deleting any one empties the list and updating any one overwrites every entry |
| PetsSection.FetchedPetCallsFail | frontend/src/components/PetsSection.jsx:149-183 | Online, a fetched pet's update and delete requests name "undefined", which the server answers 500 without changing anything, and the page keeps its list |
| PetsSection.UpdatePetByKey | frontend/src/components/PetsSection.jsx:238-257 | Keyed on `_id` (or the offline `id`): entries with the selected pet's key become the returned pet; length and the others are kept |
| PetsSection.DeletePetByKey | frontend/src/components/PetsSection.jsx:259-274 | Keyed on `_id` (or the offline `id`): exactly the entries with another key remain |
| PetsSection.FetchedListKeyed | frontend/src/components/PetsSection.jsx:244-265 | Keyed that way, in a fetched list with unique ids, a delete removes exactly the selected pet and an update replaces exactly it |
| PetsSection.GetPetIcon | frontend/src/components/PetsSection.jsx:315-326 | The dog, cat and cow icons are chosen iff the lower-cased type is that word |
| PetsSection.IconIgnoresCase | frontend/src/components/PetsSection.jsx:316-324 | The icon ignores case, and every other type gets the paw |
| PetsSection.CalculateAgeAsWritten | frontend/src/components/PetsSection.jsx:300-313 | Years when the calendar years differ, else months when the month number is later, else "Less than a month old" |
| PetsSection.AgeAsWrittenOverstates | frontend/src/components/PetsSection.jsx:303-307 | Born in December, the pet is called a year old in January, one month later |
| PetsSection.CalculateAge | frontend/src/components/PetsSection.jsx:300-313 | The age in whole calendar months: under twelve as months, from twelve on as years, none as "Less than a month old" |
| PetsSection.AgeCorrectionAgrees | frontend/src/components/PetsSection.jsx:303-311 | The corrected age and the one as written agree when the birth month is the current month |

## Left out

- Database, JWT and bcrypt: queries are functions over sequences. Token verification and password comparison are function parameters, and hashing is not modelled.
- Ids and clocks: new ObjectIds and timestamps are parameters. `updatedAt` is not tracked.
- Regular expressions: `$regex` queries are read as literal substrings. A query holding regex metacharacters is not modelled.
- Case folding: only ASCII letters are folded, and Unicode case mapping is not modelled.
- Numbers: they are `real`. `Number()` and `parseFloat()` on strings, and the Date cast, are function parameters. IEEE rounding is not modelled.
- PetController.GetPetStats: the `averageWeight` aggregate is left out (a floating-point mean over a String field).
- getAllPets, getPetById and getPetsByOwner: they are plain listings and lookups, outside the core the model covers.
- backend/controllers/PetsController.js: an unused duplicate of the pet controller; the router imports the other one.
- User schema: backend/models/User.js is not part of this model. User fields are those the controllers read and write, and values are stored as supplied.
- The numeric ObjectId constructor: a number given where an id is expected is a CastError here.
- Query parameters: they are strings. An array or object query value is not modelled.
- Order line shapes: a line that is not an object (which makes `i.productId` throw) is not modelled.
- OrderModel: `qty` and `total` are kept as the JSON value sent; the schema's Number cast is not modelled.
- Update bodies: the `undefined` keys of an update body are taken as stripped before `$set`. Body fields a handler does not read are not modelled.
- PaymentController.ListCards: the `|| []` fallback is not modelled, because a stored user always has the array.
- Route wiring: `server.js`, seeding and the route files are not modelled. The two guards that matter (AdminRoutes.js:13 and AppointmentRoutes.js:14) are modelled.
- DoctorController.js, CheckoutFrom.jsx (Stripe) and the presentation-only pages are not modelled.
- React and storage: React state, `localStorage`, JSON parsing, alerts and toasts are values passed in and returned. The response of the order request is not an input of `HandlePay`, since the page ignores it.
- Cart.LineTotal: the listed price is taken to be a number, so `(i.price || 0)` is the price itself.
- PetsSection.FilteredPets: a pet without an owner name would make the page's filter throw; listed pets carry a string owner name here.
- PetsSection.UpdatePet: `updated`, the outcome of the call, is a free parameter and is not tied to the id sent; PetsSection.FetchedPetCallsFail relates the online call to the server's answer.
- PetsSection.DeletePet: `deleted`, the outcome of the call, is a free parameter and is not tied to the id sent; PetsSection.FetchedPetCallsFail relates the online call to the server's answer.
- PetsSection.CalculateAge: the year and month of a date (local time) are inputs, and day-of-month precision is not modelled.
- Shop.CategoryImage: lookups of keys inherited from `Object.prototype` (such as "toString") are not modelled.
- Concurrency: simultaneous requests are not modelled.
- ProductController.CreateProduct: body values arrive already cast to the schema's types, so the 400 the source answers when a cast fails (a `price` of "abc", ProductController.js:27-30) is not produced.
- ProductController.UpdateProduct: likewise, the 400 on a failed cast of an update value (ProductController.js:36-39) is not produced.
- ProductController.CreateProduct: the body's `_id`, `createdAt` and `updatedAt` are not inputs; the new product always gets a fresh id and the current time, so the 400 the source answers for a body `_id` that fails its cast or is already stored is not produced.
- ProductController.UpdateProduct: likewise, a body `_id`, `createdAt` or `updatedAt` is not part of the patch, so an update that would change or clash on them is not modelled.
- AppointmentController.CreateAppointment: the body's `_id`, `createdAt` and `updatedAt`, which the spread at AppointmentController.js:6-9 passes on, are not inputs; the new appointment always gets a fresh id and the current time, so the 400 for a body `_id` that fails its cast or is already stored is not produced.
- PasswordStrength.Strength: JavaScript's `length` counts UTF-16 code units (Register.jsx:160-161) while `|s|` counts Unicode scalar values, so a password with characters outside the Basic Multilingual Plane can reach the length thresholds sooner in the source than here.

## Findings

| source | as written | input that shows it | evidently intended | confidence | as-written member | corrected member |
|---|---|---|---|---|---|---|
| backend/controllers/AdminControllers.js:100-105 | The self-delete guard compares the raw route parameter with the caller's id string, but `findById` casts the parameter case-insensitively | Caller id "aaa…a" (24 × 'a'), route id "AAA…A" (24 × 'A'): the guard passes and the caller's own account is deleted | An admin can never delete their own account, whatever the id's spelling | not executed | AdminController.DeleteAdminAsWritten, AdminController.DeleteAdminSelfCheckBypass | AdminController.DeleteAdmin, AdminController.DeleteAdminKeepsCaller |
| backend/routes/AppointmentRoutes.js:14 | `GET /all` is marked admin-only but is mounted behind `protect` alone | Any signed-in plain user requesting the list gets every appointment with every owner's name and email | `protect` followed by `adminOnly`, as on the admin routes | not executed | AppointmentController.AllAppointmentsGateAsWritten, AppointmentController.PlainUserReadsAllAppointments | AppointmentController.AllAppointmentsGate |
| frontend/src/components/PetsSection.jsx:303-311 | The age is the difference of the calendar years whenever it is positive, regardless of the months | Born December 2023, today January 2024: shows "1 year old" | One month old: whole years only after twelve months | not executed | PetsSection.CalculateAgeAsWritten, PetsSection.AgeAsWrittenOverstates | PetsSection.CalculateAge, PetsSection.AgeCorrectionAgrees |
| frontend/src/components/PetsSection.jsx:244-265 | The update and delete handlers match entries on `pet.id`, but pets the server sends only carry `_id` (the Pet schema adds no `id`), so every fetched pet has `id` undefined | Online, a fetched pet can never be updated or deleted: both requests go to /api/pets/undefined and are answered 500. Offline, with two pets restored from storage that an earlier fetch saved, deleting either one empties the list and updating either one overwrites both | Match on `_id`, falling back to the offline `id` | not executed | PetsSection.DeletePet, PetsSection.UpdatePet, PetsSection.FetchedListCollapses, PetsSection.FetchedPetCallsFail | PetsSection.DeletePetByKey, PetsSection.UpdatePetByKey, PetsSection.FetchedListKeyed |
