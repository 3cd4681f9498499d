# CompuGestion core in Dafny

CompuGestion is a desktop application for a computer-repair shop. It keeps work orders
(the devices brought in and their repair status), invoices generated from them, customers,
stock items, the business settings and the user accounts that may log in. This project
models the logic behind the application's screens and use cases, as values and state changes
over an abstract store, and proves what each operation promises.

- **Values.** `Money`, `WorkOrderStatus`, the records (`WorkOrder`, `Invoice`, `Customer`,
  `InventoryItem`, `AppSettings`, `AuthUser`) are datatypes; ids (UUIDs) are `nat`, dates are
  integer timestamps, `Double` amounts are `real`.
- **The store.** The SwiftData `ModelContext` is the class `Persistence.ModelContext`: one
  sequence per entity, plus a `commits` counter that each `context.save()` increments. Objects
  that a screen mutates directly (closing an order, toggling an invoice, deleting) are named by
  their index in the store; forms keep the id of the record they were opened on and look it up
  when they save. The records' ids are `@Attribute(.unique)`: a `UUID()` drawn for a new record
  is required to be fresh (`Seqs.FreshKey`), and every operation that inserts, replaces or
  removes a record keeps the ids of its store unique (`Seqs.UniqueKeys`).
- **Use cases.** Create, close, invoice and filter work orders (`CreateWorkOrder`,
  `CloseWorkOrder`, `GenerateInvoice`, `FilterWorkOrders`).
- **Accounts.** The password hash, the login guards, the initial administrator, user creation
  and edits (`AuthUsers`, `AuthService`), and the login screen's state (`Session`).
- **Settings.** Get-or-create and update of the single settings record (`SettingsService`).
- **Screens.** The list filters and row mappings for orders, invoices, stock and customers;
  the three forms with their create-versus-edit saves; the decimal-text sanitiser of the order
  form; the dashboard figures.
- **Text.** Foundation's string operations the code relies on (`lowercased`, `contains`,
  trimming with `.whitespaces` or `.whitespacesAndNewlines`, `Int(_:)`, `Double(_:)`,
  `String(Int)`) are written out in `Text` and `Numbers` with ASCII case mapping.

The work-order filter use case compares the stored raw status text, while the order list
and the dashboard use the `status` getter, which falls back to `received` for an unknown raw
value. `FilterWorkOrders.StatusCriterionIsRaw` shows an order that the getter calls received
and that the use case's status filter still drops. The code's invoice arithmetic runs on
`Double` and not on `Money`; the model follows the code, with exact `real`s.

## Model

| member | source | states |
|---|---|---|
| Money.Plus | CompuGestion/Core/Domain/ValueObjects/Money.swift:52-54 | the sum's decimal value is the sum of the decimal values |
| Money.Minus | CompuGestion/Core/Domain/ValueObjects/Money.swift:56-58 | the difference's decimal value is the difference of the decimal values |
| Money.Times | CompuGestion/Core/Domain/ValueObjects/Money.swift:60-62 | scaling by a decimal rate scales the decimal value exactly |
| Money.DecimalRoundTrip | CompuGestion/Core/Domain/ValueObjects/Money.swift:20-38 | `init(decimal:)` and `decimalValue` are inverse to each other |
| Money.PlusLaws | CompuGestion/Core/Domain/ValueObjects/Money.swift:52-58 | `+` is commutative and `(a + b) - b == a` |
| Money.OrderLaws | CompuGestion/Core/Domain/ValueObjects/Money.swift:68-74 | `a < b` iff `b > a`, and `a < b` and `a > b` never both hold |
| OrderStatus.Parse | CompuGestion/Core/Domain/ValueObjects/WorkOrderStatus.swift:11-17 | `init(rawValue:)` gives the case with that raw value, and nothing exactly when no case has it |
| OrderStatus.Id | CompuGestion/Core/Domain/ValueObjects/WorkOrderStatus.swift:19 | the id is the raw value |
| OrderStatus.AllCasesExact | CompuGestion/Core/Domain/ValueObjects/WorkOrderStatus.swift:11-17 | `allCases` lists the six cases once each, in declaration order |
| OrderStatus.ParseRawValue | CompuGestion/Core/Domain/ValueObjects/WorkOrderStatus.swift:11-17 | every case is read back from its raw value |
| OrderStatus.NamesInjective | CompuGestion/Core/Domain/ValueObjects/WorkOrderStatus.swift:12-30 | distinct cases have distinct raw values and distinct titles |
| WorkOrders.Status | CompuGestion/Core/Domain/Entities/WorkOrder.swift:33-34 | the getter returns the case whose raw value is stored, or `received` for unknown text |
| WorkOrders.WithStatus | CompuGestion/Core/Domain/Entities/WorkOrder.swift:35 | after the setter the getter returns the new status, and only `statusRaw` changed |
| WorkOrders.SetStatusTwice | CompuGestion/Core/Domain/Entities/WorkOrder.swift:35 | setting a status twice is setting the last one |
| WorkOrders.StatusOfRaw | CompuGestion/Core/Domain/Entities/WorkOrder.swift:33-34 | a stored raw value reads back as its case; unparsable text reads as `received` |
| WorkOrders.NewWorkOrder | CompuGestion/Core/Domain/Entities/WorkOrder.swift:39-57 | the initialiser stores each argument and the status's raw value; `updatedAt` defaults to nil |
| ArraySafe.SafeSubscript | CompuGestion/Shared/Extensions/Array+Safe.swift:13-15 | in range it is the element, otherwise nil; the array is a value and is not changed |
| ArraySafe.SafeSubscriptDefinedIff | CompuGestion/Shared/Extensions/Array+Safe.swift:13-15 | a result exists exactly for indices in range, never on an empty array |
| CreateWorkOrder.Execute | CompuGestion/Core/Domain/UseCases/CreateWorkOrderUseCase.swift:23-40 | exactly one new order is appended, carrying the arguments, and the store is saved once; with a fresh id the order ids stay unique |
| CreateWorkOrder.CreatedOrderFields | CompuGestion/Core/Domain/UseCases/CreateWorkOrderUseCase.swift:27-37 | with the default status the new order is received, never updated, and holds the given texts and cost |
| CloseWorkOrder.Closed | CompuGestion/Core/Domain/UseCases/CloseWorkOrderUseCase.swift:23-29 | the result is delivered; a delivered order is returned as it is; otherwise `updatedAt` is now and nothing else changes |
| CloseWorkOrder.CloseIdempotent | CompuGestion/Core/Domain/UseCases/CloseWorkOrderUseCase.swift:23-26 | closing a closed order changes nothing, whatever the clock says |
| CloseWorkOrder.Execute | CompuGestion/Core/Domain/UseCases/CloseWorkOrderUseCase.swift:19-31 | only that order is replaced by its closed form; the store is saved unless it was already delivered; the order ids stay unique |
| GenerateInvoice.GenerateInvoiceNumber | CompuGestion/Core/Domain/UseCases/GenerateInvoiceUseCase.swift:60-67 | the number is `FAC-` followed by the date part |
| GenerateInvoice.InvoiceNumberInjective | CompuGestion/Core/Domain/UseCases/GenerateInvoiceUseCase.swift:60-67 | different date parts give different numbers |
| GenerateInvoice.BuildInvoice | CompuGestion/Core/Domain/UseCases/GenerateInvoiceUseCase.swift:31-47 | subtotal is the estimate, tax is subtotal times rate, total is their sum; linked to the order, paid as asked, no payment method or notes |
| GenerateInvoice.TaxBounds | CompuGestion/Core/Domain/UseCases/GenerateInvoiceUseCase.swift:31-33 | total is estimate times (1 + rate); non-negative inputs give non-negative tax; rate 0 makes total equal subtotal |
| GenerateInvoice.DefaultRateExample | CompuGestion/Core/Domain/UseCases/GenerateInvoiceUseCase.swift:25-33 | at the default 16 % rate an estimate of 1500 gives tax 240 and total 1740 |
| GenerateInvoice.Execute | CompuGestion/Core/Domain/UseCases/GenerateInvoiceUseCase.swift:23-54 | exactly that invoice is appended and returned, and the store is saved once; with a fresh id the invoice ids stay unique |
| FilterWorkOrders.ReduceIsConjunction | CompuGestion/Core/Domain/UseCases/FilterWorkOrderUseCase.swift:44-57 | the `reduce` of the predicates holds exactly when each of them does |
| FilterWorkOrders.Combine | CompuGestion/Core/Domain/UseCases/FilterWorkOrderUseCase.swift:44-57 | there is no combined predicate exactly when there are no predicates |
| FilterWorkOrders.CombineIsConjunction | CompuGestion/Core/Domain/UseCases/FilterWorkOrderUseCase.swift:44-57 | the combined predicate is the conjunction of all predicates |
| FilterWorkOrders.Insert | CompuGestion/Core/Domain/UseCases/FilterWorkOrderUseCase.swift:60-63 | inserting adds exactly that order |
| FilterWorkOrders.SortNewestFirst | CompuGestion/Core/Domain/UseCases/FilterWorkOrderUseCase.swift:60-63 | the sort is a permutation of the fetched orders |
| FilterWorkOrders.InsertKeepsOrder | CompuGestion/Core/Domain/UseCases/FilterWorkOrderUseCase.swift:60-63 | inserting into a newest-first list keeps it newest first |
| FilterWorkOrders.SortIsNewestFirst | CompuGestion/Core/Domain/UseCases/FilterWorkOrderUseCase.swift:60-63 | the fetch sorts by `createdAt`, newest first |
| FilterWorkOrders.FilterKeepsOrder | CompuGestion/Core/Domain/UseCases/FilterWorkOrderUseCase.swift:67-77 | a filter of a newest-first list is newest first |
| FilterWorkOrders.FetchContents | CompuGestion/Core/Domain/UseCases/FilterWorkOrderUseCase.swift:60-65 | the fetch returns each matching order as often as it is stored, none other, newest first |
| FilterWorkOrders.PredicatesMatchFilter | CompuGestion/Core/Domain/UseCases/FilterWorkOrderUseCase.swift:26-57 | the appended predicates hold exactly for orders with that raw status and a creation date inside the inclusive bounds |
| FilterWorkOrders.AllHoldAppend | CompuGestion/Core/Domain/UseCases/FilterWorkOrderUseCase.swift:26-41 | appending predicates conjoins their conditions |
| FilterWorkOrders.TextStageContents | CompuGestion/Core/Domain/UseCases/FilterWorkOrderUseCase.swift:67-79 | the text stage, applied only for a non-blank search, keeps the fetched orders that contain the lowercased text, in order |
| FilterWorkOrders.Execute | CompuGestion/Core/Domain/UseCases/FilterWorkOrderUseCase.swift:21-81 | the result holds each stored order meeting every criterion as often as it is stored, no other, newest first |
| FilterWorkOrders.NoCriteriaKeepsAll | CompuGestion/Core/Domain/UseCases/FilterWorkOrderUseCase.swift:26-41 | an empty filter, or one with only a blank search, keeps every order |
| FilterWorkOrders.StatusCriterionIsRaw | CompuGestion/Core/Domain/UseCases/FilterWorkOrderUseCase.swift:26-29 | an order whose raw status is unknown reads as received but fails the received filter |
| AuthUsers.ParseRole | CompuGestion/Core/Domain/Entities/AuthUser.swift:11-13 | a role is read from its raw value, and nothing exactly when no role has that text |
| AuthUsers.Role | CompuGestion/Core/Domain/Entities/AuthUser.swift:69-70 | the getter returns the stored role, or cashier for unknown text |
| AuthUsers.WithRole | CompuGestion/Core/Domain/Entities/AuthUser.swift:71 | after the setter the getter returns the new role, and only `roleRaw` changed |
| AuthUsers.NewAuthUser | CompuGestion/Core/Domain/Entities/AuthUser.swift:53-65 | the initialiser stores each argument and the role's raw value; active by default |
| AuthUsers.Hash | CompuGestion/Core/Domain/Entities/AuthUser.swift:79-83 | the hash is the reversed password followed by `\|salt` |
| AuthUsers.HashInjective | CompuGestion/Core/Domain/Entities/AuthUser.swift:79-83 | different passwords have different hashes |
| AuthUsers.CheckPasswordExactly | CompuGestion/Core/Domain/Entities/AuthUser.swift:85-87 | a user whose hash was made from `p` accepts exactly `p` |
| AuthService.FindUser | CompuGestion/Core/Domain/Entities/AuthService.swift:74-78 | the lookup finds the first user with that name, and nothing exactly when there is none |
| AuthService.InitialAdmin | CompuGestion/Core/Domain/Entities/AuthService.swift:48-56 | the seeded account is the active administrator `admin` whose password is `admin` |
| AuthService.Seeded | CompuGestion/Core/Domain/Entities/AuthService.swift:41-58 | an empty account list gets the administrator; a non-empty one is unchanged |
| AuthService.SeedIdempotent | CompuGestion/Core/Domain/Entities/AuthService.swift:45 | seeding twice seeds once, and keeps user names unique |
| AuthService.SeedInitialAdminIfNeeded | CompuGestion/Core/Domain/Entities/AuthService.swift:41-62 | the accounts become their seeded form; the store is saved only when something was inserted |
| AuthService.Login | CompuGestion/Core/Domain/Entities/AuthService.swift:69-91 | the guards in order: unknown name, then disabled, then wrong password; a success is a stored, active user with that name and password |
| AuthService.DisabledBeforePassword | CompuGestion/Core/Domain/Entities/AuthService.swift:82-88 | a disabled user is refused as disabled whatever password is given |
| AuthService.FirstMatchIsOnlyMatch | CompuGestion/Core/Domain/Entities/AuthService.swift:74-78 | with unique names the lookup finds the user with that name |
| AuthService.LoginSucceedsExactly | CompuGestion/Core/Domain/Entities/AuthService.swift:69-91 | with unique names, login as a user succeeds iff the user is active and the password checks, and returns that user |
| AuthService.CreatedUser | CompuGestion/Core/Domain/Entities/AuthService.swift:115-120 | the new account has the name, accepts the password, and has the role and active flag asked for |
| AuthService.AppendKeepsUnique | CompuGestion/Core/Domain/Entities/AuthService.swift:103-122 | adding an account whose name is free keeps names unique |
| AuthService.CreateUser | CompuGestion/Core/Domain/Entities/AuthService.swift:96-126 | a taken name fails with the message and changes nothing; otherwise one account is appended, saved and returned; names stay unique |
| AuthService.ChangePassword | CompuGestion/Core/Domain/Entities/AuthService.swift:129-136 | only that account's hash is replaced by the new password's, and the store is saved |
| AuthService.ChangedPasswordChecks | CompuGestion/Core/Domain/Entities/AuthService.swift:134 | after the change, exactly the new password is accepted |
| AuthService.SetActive | CompuGestion/Core/Domain/Entities/AuthService.swift:139-146 | only that account's active flag is set, and the store is saved |
| AuthService.UserEditsKeepUnique | CompuGestion/Core/Domain/Entities/AuthService.swift:129-146 | changing a password or the active flag keeps names unique |
| Session.RoleFlags | CompuGestion/Core/Domain/Entities/AuthViewModel.swift:38-44 | a logged-in user is an administrator or a cashier, never both; nobody logged in is neither |
| Session.LoginAttempt | CompuGestion/Core/Domain/Entities/AuthViewModel.swift:60-85 | blank trimmed credentials give the empty-credentials message; otherwise the service's answer on the trimmed texts, errors as their descriptions |
| Session.LoginAttemptSound | CompuGestion/Core/Domain/Entities/AuthViewModel.swift:63-78 | a successful attempt yields a stored, active user with the trimmed name, accepting the trimmed password |
| Session.AuthViewModel.constructor | CompuGestion/Core/Domain/Entities/AuthViewModel.swift:16-23 | empty fields, not loading, no error, nobody logged in |
| Session.AuthViewModel.CurrentRole | CompuGestion/Core/Domain/Entities/AuthViewModel.swift:30-36 | there is a role exactly when someone is logged in, and it is that user's role |
| Session.AuthViewModel.Initialize | CompuGestion/Core/Domain/Entities/AuthViewModel.swift:49-55 | the accounts are seeded, and saved only when the table was empty |
| Session.AuthViewModel.Login | CompuGestion/Core/Domain/Entities/AuthViewModel.swift:59-88 | loading ends; success sets the user and clears the error; failure sets the message and keeps the previous user |
| Session.AuthViewModel.Logout | CompuGestion/Core/Domain/Entities/AuthViewModel.swift:90-95 | nobody is logged in, the fields and the error are cleared, neither role flag holds |
| SettingsService.WithCurrent | CompuGestion/Core/Services/SettingsService.swift:21-31 | the store has a settings record afterwards: the existing ones, or the defaults |
| SettingsService.WithCurrentIdempotent | CompuGestion/Core/Services/SettingsService.swift:23-24 | asking for the settings twice creates them at most once |
| SettingsService.DefaultsAre | CompuGestion/Features/Settings/Models/AppSettings.swift:37-52 | the created record is "Repair Manager" with 16 % tax and empty contact texts |
| SettingsService.Applied | CompuGestion/Core/Services/SettingsService.swift:50-57 | each of the six inputs is stored and `updatedAt` is now |
| SettingsService.AppliedOverwritesAll | CompuGestion/Core/Services/SettingsService.swift:50-57 | the update does not depend on the previous values, and a second update overrides the first |
| SettingsService.CurrentSettings | CompuGestion/Core/Services/SettingsService.swift:21-31 | returns the first record, inserting and saving the defaults when there is none |
| SettingsService.UpdateSettings | CompuGestion/Core/Services/SettingsService.swift:45-61 | the current record, created if needed, gets the inputs; nothing is added besides it; one save, two when it was created |
| WorkOrdersList.ProblemNotSearched | CompuGestion/Features/WorkOrders/ViewModels/WorkOrdersListViewModels.swift:49-54 | the problem description does not take part in the search |
| WorkOrdersList.SpaceSearchIsLiteral | CompuGestion/Features/WorkOrders/ViewModels/WorkOrdersListViewModels.swift:49-50 | the search is not trimmed: a single space hides an order without spaces |
| WorkOrdersList.WorkOrdersListViewModel.constructor | CompuGestion/Features/WorkOrders/ViewModels/WorkOrdersListViewModels.swift:14-28 | no search and no status filter |
| WorkOrdersList.WorkOrdersListViewModel.FilteredOrders | CompuGestion/Features/WorkOrders/ViewModels/WorkOrdersListViewModels.swift:41-58 | keeps, in order and as often as stored, exactly the orders with the selected status that contain the search in customer or device; no filter keeps all |
| WorkOrdersList.WorkOrdersListViewModel.SetStatusFilter | CompuGestion/Features/WorkOrders/ViewModels/WorkOrdersListViewModels.swift:60-62 | the status filter becomes the argument |
| WorkOrdersList.WorkOrdersListViewModel.Delete | CompuGestion/Features/WorkOrders/ViewModels/WorkOrdersListViewModels.swift:77-80 | exactly that order is removed and the store is saved; the ids stay unique |
| WorkOrderForm.EditedOrder | CompuGestion/Features/WorkOrders/ViewModels/WorkOrderFormViewModel.swift:61-68 | the five form values are stored, `updatedAt` is now, id and creation date are kept |
| WorkOrderForm.SavedOrders | CompuGestion/Features/WorkOrders/ViewModels/WorkOrderFormViewModel.swift:61-79 | an edit changes only the first stored order with the kept id and inserts nothing; a create appends one order with the form values |
| WorkOrderForm.EditRewritesOpenedOrder | CompuGestion/Features/WorkOrders/ViewModels/WorkOrderFormViewModel.swift:61-68 | with unique ids, saving a form opened on a stored order rewrites that order and no other |
| WorkOrderForm.SavedOrdersKeepIdsUnique | CompuGestion/Features/WorkOrders/ViewModels/WorkOrderFormViewModel.swift:61-79 | a save keeps the order ids unique, given a fresh id for a new order |
| WorkOrderForm.WorkOrderFormViewModel.New | CompuGestion/Features/WorkOrders/ViewModels/WorkOrderFormViewModel.swift:16-44 | empty texts, status received, not editing, titled "Nueva orden" |
| WorkOrderForm.WorkOrderFormViewModel.Edit | CompuGestion/Features/WorkOrders/ViewModels/WorkOrderFormViewModel.swift:27-44 | the order's fields are copied, editing, titled "Editar orden" |
| WorkOrderForm.WorkOrderFormViewModel.Save | CompuGestion/Features/WorkOrders/ViewModels/WorkOrderFormViewModel.swift:56-82 | an unparsable cost changes and saves nothing; otherwise the saved orders above, saved once; the texts are not checked again; a fresh id for a new order keeps the ids unique |
| WorkOrderFormView.FilterToDecimalString | CompuGestion/Features/WorkOrders/Views/WorkOrderFormView.swift:92-105 | the loop computes the sanitised text |
| WorkOrderFormView.KeepDecimalChars | CompuGestion/Features/WorkOrders/Views/WorkOrderFormView.swift:95-103 | the output has only digits and dots, at most one dot |
| WorkOrderFormView.KeepDecimalSubsequence | CompuGestion/Features/WorkOrders/Views/WorkOrderFormView.swift:96-104 | the output is a subsequence of the input |
| WorkOrderFormView.KeepDecimalFixed | CompuGestion/Features/WorkOrders/Views/WorkOrderFormView.swift:96-104 | digits with at most one dot come back unchanged |
| WorkOrderFormView.KeepDecimalIdempotent | CompuGestion/Features/WorkOrders/Views/WorkOrderFormView.swift:92-105 | sanitising twice is sanitising once |
| WorkOrderFormView.KeepDecimalAfterDot | CompuGestion/Features/WorkOrders/Views/WorkOrderFormView.swift:99-102 | once a dot is kept, only digits follow |
| WorkOrderFormView.KeepDecimalKeepsFirstDot | CompuGestion/Features/WorkOrders/Views/WorkOrderFormView.swift:99-102 | the output is the digits before the first dot, that dot, and the digits after it |
| WorkOrderFormView.KeepsEveryDigit | CompuGestion/Features/WorkOrders/Views/WorkOrderFormView.swift:96-98 | every digit of the input is kept, in order |
| WorkOrderFormView.DecimalTextUnsigned | CompuGestion/Features/WorkOrders/Views/WorkOrderFormView.swift:92-105 | sanitised text carries no sign |
| WorkOrderFormView.DecimalTextParts | CompuGestion/Features/WorkOrders/Views/WorkOrderFormView.swift:92-105 | sanitised text splits at its dot into two digit strings |
| WorkOrderFormView.DecimalTextParses | CompuGestion/Features/WorkOrders/Views/WorkOrderFormView.swift:92-105 | sanitised text parses as a number iff it holds a digit |
| WorkOrderFormView.FilteredCostParses | CompuGestion/Features/WorkOrders/Views/WorkOrderFormView.swift:92-105 | the field's text parses after sanitising iff the input had a digit |
| WorkOrderFormView.OnEstimatedCostTextChange | CompuGestion/Features/WorkOrders/Views/WorkOrderFormView.swift:56-63 | the cost text becomes its sanitised form, a fixed point; it is written only when it differs |
| BillingList.LinkedOrder | CompuGestion/Features/Billing/ViewModels/BillingListViewModel.swift:37-55 | an invoice without an order, or whose order is gone, has no linked order; otherwise it is the stored order with that id |
| BillingList.Passing | CompuGestion/Features/Billing/ViewModels/BillingListViewModel.swift:24-43 | keeps the invoices passing the paid filter and the search; no filter and a blank search keep all |
| BillingList.PassingKeepsMultiplicity | CompuGestion/Features/Billing/ViewModels/BillingListViewModel.swift:24-43 | passing invoices are kept as often as they occur, in input order; others are dropped |
| BillingList.ToItem | CompuGestion/Features/Billing/ViewModels/BillingListViewModel.swift:49-64 | the row copies id, number and paid flag; the customer is the linked order's, or "Sin cliente" |
| BillingList.Toggled | CompuGestion/Features/Billing/ViewModels/BillingListViewModel.swift:71 | only the paid flag changes, to its negation |
| BillingList.ToggleTwice | CompuGestion/Features/Billing/ViewModels/BillingListViewModel.swift:70-73 | toggling twice restores the invoice |
| BillingList.BillingListViewModel.constructor | CompuGestion/Features/Billing/ViewModels/BillingListViewModel.swift:15-19 | no search and no paid filter |
| BillingList.BillingListViewModel.FilteredItems | CompuGestion/Features/Billing/ViewModels/BillingListViewModel.swift:23-66 | one row per passing invoice, in input order; rows match the paid filter; no filter maps every invoice |
| BillingList.BillingListViewModel.TogglePaid | CompuGestion/Features/Billing/ViewModels/BillingListViewModel.swift:70-73 | only that invoice is toggled, and the store is saved; the ids stay unique |
| BillingList.BillingListViewModel.Delete | CompuGestion/Features/Billing/ViewModels/BillingListViewModel.swift:75-78 | exactly that invoice is removed and the store is saved; the ids stay unique |
| BillingList.BillingListViewModel.SetPaidFilter | CompuGestion/Features/Billing/ViewModels/BillingListViewModel.swift:82-84 | the paid filter becomes the argument |
| InventoryList.Passing | CompuGestion/Features/Inventory/ViewModels/InventoryListViewModel.swift:22-32 | keeps the items whose name, SKU or category contain the search; an empty search keeps all |
| InventoryList.PassingKeepsMultiplicity | CompuGestion/Features/Inventory/ViewModels/InventoryListViewModel.swift:22-32 | passing items are kept as often as they occur, in input order; others are dropped |
| InventoryList.ToListItem | CompuGestion/Features/Inventory/ViewModels/InventoryListViewModel.swift:34-44 | the row copies id, SKU, name and category; low stock iff quantity at most the minimum; the quantity text reads back as the quantity |
| InventoryList.SpaceSearchIsLiteral | CompuGestion/Features/Inventory/ViewModels/InventoryListViewModel.swift:23-25 | the search is not trimmed: a single space hides an item without spaces |
| InventoryList.InventoryListViewModel.constructor | CompuGestion/Features/Inventory/ViewModels/InventoryListViewModel.swift:16 | the search is empty |
| InventoryList.InventoryListViewModel.FilteredItems | CompuGestion/Features/Inventory/ViewModels/InventoryListViewModel.swift:20-45 | one row per passing item, in input order; an empty search maps every item |
| InventoryList.InventoryListViewModel.Delete | CompuGestion/Features/Inventory/ViewModels/InventoryListViewModel.swift:49-52 | exactly that item is removed and the store is saved; the ids stay unique |
| InventoryForm.EditedItem | CompuGestion/Features/Inventory/ViewModels/InventoryFormViewModel.swift:72-82 | every form value is stored, empty optional texts as nil, `updatedAt` is now, the id is kept |
| InventoryForm.NewItem | CompuGestion/Features/Inventory/ViewModels/InventoryFormViewModel.swift:84-94 | the new item carries the form values, empty optional texts as nil |
| InventoryForm.SavedItems | CompuGestion/Features/Inventory/ViewModels/InventoryFormViewModel.swift:72-96 | an edit changes only the first stored item with the kept id and inserts nothing; a create appends one item |
| InventoryForm.EditRewritesOpenedItem | CompuGestion/Features/Inventory/ViewModels/InventoryFormViewModel.swift:72-81 | with unique ids, saving a form opened on a stored item rewrites that item and no other |
| InventoryForm.SavedItemsKeepIdsUnique | CompuGestion/Features/Inventory/ViewModels/InventoryFormViewModel.swift:72-96 | a save keeps the item ids unique, given a fresh id for a new item |
| InventoryForm.UneditedSaveKeepsItem | CompuGestion/Features/Inventory/ViewModels/InventoryFormViewModel.swift:36-82 | opening an item and saving it untouched changes only `updatedAt`: the quantities survive their text round trip |
| InventoryForm.InventoryFormViewModel.New | CompuGestion/Features/Inventory/ViewModels/InventoryFormViewModel.swift:17-51 | empty fields, not editing, titled "Nuevo artículo" |
| InventoryForm.InventoryFormViewModel.Edit | CompuGestion/Features/Inventory/ViewModels/InventoryFormViewModel.swift:31-51 | the item's fields are copied with nil as "", the quantity texts read back exactly, editing, titled "Editar artículo" |
| InventoryForm.InventoryFormViewModel.Save | CompuGestion/Features/Inventory/ViewModels/InventoryFormViewModel.swift:63-99 | a number that does not parse changes and saves nothing; otherwise the saved items above, saved once; a fresh id for a new item keeps the ids unique |
| CustomersList.Passing | CompuGestion/Features/Customers/ViewModels/CustomersListViewModel.swift:24-34 | keeps the customers whose name, phone or email contain the search; an empty search keeps all |
| CustomersList.PassingKeepsMultiplicity | CompuGestion/Features/Customers/ViewModels/CustomersListViewModel.swift:24-34 | passing customers are kept as often as they occur, in input order; others are dropped |
| CustomersList.AddressNotSearched | CompuGestion/Features/Customers/ViewModels/CustomersListViewModel.swift:29-33 | the address does not take part in the search |
| CustomersList.ToListItem | CompuGestion/Features/Customers/ViewModels/CustomersListViewModel.swift:36-44 | the row copies id, name, phone and email; the summary is nil |
| CustomersList.CustomersListViewModel.constructor | CompuGestion/Features/Customers/ViewModels/CustomersListViewModel.swift:19 | the search is empty |
| CustomersList.CustomersListViewModel.FilteredItems | CompuGestion/Features/Customers/ViewModels/CustomersListViewModel.swift:23-45 | one row per passing customer, in input order; an empty search maps every customer |
| CustomersList.CustomersListViewModel.Delete | CompuGestion/Features/Customers/ViewModels/CustomersListViewModel.swift:49-52 | exactly that customer is removed and the store is saved; the ids stay unique |
| CustomerForm.EditedCustomer | CompuGestion/Features/Customers/ViewModels/CustomerFormViewModel.swift:53-58 | the four form values are stored, empty ones as nil, the id is kept |
| CustomerForm.SavedCustomers | CompuGestion/Features/Customers/ViewModels/CustomerFormViewModel.swift:52-68 | an edit changes only the first stored customer with the kept id and inserts nothing; a create appends one customer |
| CustomerForm.EditRewritesOpenedCustomer | CompuGestion/Features/Customers/ViewModels/CustomerFormViewModel.swift:52-58 | with unique ids, saving a form opened on a stored customer rewrites that customer and no other |
| CustomerForm.SavedCustomersKeepIdsUnique | CompuGestion/Features/Customers/ViewModels/CustomerFormViewModel.swift:52-68 | a save keeps the customer ids unique, given a fresh id for a new customer |
| CustomerForm.UneditedSaveKeepsCustomer | CompuGestion/Features/Customers/ViewModels/CustomerFormViewModel.swift:27-58 | opening a customer and saving it untouched changes nothing |
| CustomerForm.CustomerFormViewModel.New | CompuGestion/Features/Customers/ViewModels/CustomerFormViewModel.swift:16-43 | empty fields, not editing, titled "Nuevo cliente" |
| CustomerForm.CustomerFormViewModel.Edit | CompuGestion/Features/Customers/ViewModels/CustomerFormViewModel.swift:27-43 | the customer's fields are copied with nil as "", editing, titled "Editar cliente" |
| CustomerForm.CustomerFormViewModel.Save | CompuGestion/Features/Customers/ViewModels/CustomerFormViewModel.swift:52-71 | the saved customers above, saved once; nothing guards it; a fresh id for a new customer keeps the ids unique |
| Dashboard.OpenOrdersCount | CompuGestion/Features/Dashboard/Views/DashboardView.swift:103-105 | at most the number of orders, and 0 exactly when every order is delivered |
| Dashboard.OpenOrdersCountAppend | CompuGestion/Features/Dashboard/Views/DashboardView.swift:103-105 | the count over two lists is the sum of their counts |
| Dashboard.OpenOrdersCountSingle | CompuGestion/Features/Dashboard/Views/DashboardView.swift:104 | one order counts once iff it is not delivered, so the count is the number of such orders |
| Dashboard.RevenueAppend | CompuGestion/Features/Dashboard/Views/DashboardView.swift:113-118 | the revenue over two lists is the sum of their revenues |
| Dashboard.RevenueSingle | CompuGestion/Features/Dashboard/Views/DashboardView.swift:113-118 | one order adds its estimate iff it is not delivered, so the revenue is the sum over such orders |
| Dashboard.RevenueIgnoresDeliveredCosts | CompuGestion/Features/Dashboard/Views/DashboardView.swift:115 | changing the estimate of a delivered order leaves the revenue unchanged |
| Dashboard.RevenueNonNegative | CompuGestion/Features/Dashboard/Views/DashboardView.swift:113-118 | non-negative estimates give a non-negative revenue |
| Dashboard.OpenOrdersCountPermutation | CompuGestion/Features/Dashboard/Views/DashboardView.swift:103-105 | the open-order count does not depend on the order of the list |
| Dashboard.RevenuePermutation | CompuGestion/Features/Dashboard/Views/DashboardView.swift:113-118 | the estimated revenue does not depend on the order of the list |
| Dashboard.FiguresIgnoreSort | CompuGestion/Features/Dashboard/Views/DashboardView.swift:12-13 | both figures over the query's newest-first list equal the figures over the stored orders |
| Dashboard.RecentOrders | CompuGestion/Features/Dashboard/Views/DashboardView.swift:12-67 | the first five of the newest-first orders: at most five, newest first, all stored |
| Persistence.ModelContext.Save | CompuGestion/Core/Domain/UseCases/CreateWorkOrderUseCase.swift:40 | a save commits once |
| Records.NilIfEmpty | CompuGestion/Features/Inventory/ViewModels/InventoryFormViewModel.swift:76-81 | the empty text is stored as nil, any other text as itself |
| Records.NilIfEmptyRoundTrip | CompuGestion/Features/Customers/ViewModels/CustomerFormViewModel.swift:33-58 | showing a field as "" and storing it back restores it, unless it held "" |
| Records.IndexOfOrder | CompuGestion/Core/Domain/Entities/Invoice.swift:21-22 | an invoice's order resolves to the first stored order with its id, or to nothing when none is left |
| Records.UniqueOrderIndex | CompuGestion/Core/Domain/Entities/WorkOrder.swift:15 | with unique ids, a stored order's id resolves to that very order |
| Records.UniqueItemIndex | CompuGestion/Core/Domain/Entities/InventoryItem.swift:15 | with unique ids, a stored item's id resolves to that very item |
| Records.UniqueCustomerIndex | CompuGestion/Core/Domain/Entities/Customer.swift:14 | with unique ids, a stored customer's id resolves to that very customer |
| Seqs.AppendFreshKeepsUnique | CompuGestion/Core/Domain/Entities/WorkOrder.swift:15 | inserting a record with a fresh id keeps the ids unique |
| Seqs.ReplaceKeepsUnique | CompuGestion/Core/Domain/Entities/WorkOrder.swift:15 | replacing a record by one with the same id keeps the ids unique |
| Seqs.RemoveAtKeepsUnique | CompuGestion/Core/Domain/Entities/WorkOrder.swift:15 | removing a record keeps the ids unique |
| Numbers.ParseFormatInt | CompuGestion/Features/Inventory/ViewModels/InventoryFormViewModel.swift:39-66 | `Int(String(n)) == n` for every 64-bit `n` |
| Text.ContainsIffOccurs | CompuGestion/Features/Inventory/ViewModels/InventoryListViewModel.swift:27-29 | `contains` holds exactly when the text occurs at some position |
| Text.BlankIffAllInSet | CompuGestion/Features/Customers/ViewModels/CustomerFormViewModel.swift:45-47 | a text trims to empty exactly when it consists of characters of the trimmed set |
| Text.ReverseReverse | CompuGestion/Core/Domain/Entities/AuthUser.swift:82 | reversing twice gives the text back |

`canSave` (all three forms), `title`, `isLoggedIn`, `isAdmin`, `isCashier`, the list
match tests, `localizedTitle`, `localizedName`, the error descriptions and
`estimatedRevenue` are defined directly as predicates and functions; their properties are
stated by the members above.

## Left out

- SwiftUI bodies, sheets and menus; PDF generation and printing; logging, which is a no-op here.
- Date and currency formatting (`formattedDate`, `formattedCost`, `issueDateText`, `totalText`,
  `unitCostText`) and the dashboard's `todayOrdersCount`: they depend on locale, calendar and
  the current time.
- The date part of the invoice number is a parameter, and so are `UUID()` and `Date()`.
  `SettingsService.UpdateSettings` reads the clock once, where the source reads it twice.
- `String(Double)` in the work-order and stock forms' initialisers is the parameter `costText`.
  `Double(text)` covers plain decimal notation (an optional sign, digits, one dot); exponents,
  hexadecimal, `inf` and `nan` are not modelled.
- `Double` is modelled as exact `real` arithmetic: rounding of invoice and dashboard amounts
  is not modelled.
- `Money`'s `Double` initialisers, `doubleValue`, `* Double` and `formatted()`.
- Unicode: `lowercased()` maps ASCII letters only, and `Character.isNumber` is an ASCII
  digit. Strings are sequences of code points: Swift's `==`, `contains` and `reversed()` work
  on grapheme clusters under canonical equivalence ("é" equals "e\u{301}"), so
  `AuthUsers.CheckPasswordExactly` and `Text.Contains` hold per code point.
- Failures of `context.save()` are not modelled, and so saves always succeed. The login's
  branch for errors other than `AuthError` ("Ocurrió un error al iniciar sesión.") is
  therefore never reached.
- Object identity: SwiftData objects are values in a sequence, named by index or by id.
  The uniqueness of ids is stated as an invariant the operations keep, given fresh ids for
  new records; SwiftData's rejection of a duplicate id at save time is not modelled.
- SwiftData's fetch order is taken as store order, and the order of orders with equal
  creation dates after the newest-first sort is one fixed order.
- `AppUserRole.description`, `id` and the `CaseIterable` listing of roles: display text only.
- Role-based gating of the application's sections: no code implements it.
- `InventoryItem.swift` declares neither `sku`, `category`, `minimumStock`, `location` nor
  `updatedAt`, while the stock view-models use all of them. The record carries them,
  `unitPrice` is left out, and a new item's `updatedAt` is nil.
- The customer list screen calls `filteredCustomers`, which the view-model does not define.
  The view-model's `filteredItems` is the member modelled.
- `Session.AuthViewModel.Login`: `isLoading` is true only during the attempt, and only the
  final state is stated.
- `CloseWorkOrder.Execute`, `WorkOrdersList.WorkOrdersListViewModel.Delete` and the other
  delete and toggle methods take the object's index in the store instead of the object.
