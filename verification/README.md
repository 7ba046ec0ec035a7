# MediExpress Connect, modelled in Dafny

MediExpress Connect is an online pharmacy and clinic front end backed by a
hosted Postgres database, storage bucket and authentication service. This
project models its client logic and its one server function as pure Dafny
functions over immutable records:

- the application shell's session check and route table, and the sign-in page;
- the navigation bar: links by role, and the cart badge;
- the product catalogue: listing, the admin-only "Add Product" form and its
  validator, and deleting;
- the cart: adding from a product card, and changing quantities from a cart
  line, with the total folded by a loop;
- appointments: booking, the role-dependent fetch and its enrichment, and the
  doctor's accept/reject claim of a pending request;
- the appointments list and page;
- the doctor dashboard's pending count;
- the admin statistics, appointments table and doctor list;
- the profile page's load and save;
- the prescription page: file gate, keyword validation, product matching,
  storage path, record and cart line;
- the server-side prescription check, with its bearer-token user id and its
  response codes.

Tables are sequences of rows. A backend query that can fail is an `Option`
reply (None is the error branch). A write that can fail is a boolean
parameter, and generated ids, clocks and random names are parameters too.
JavaScript truthiness of a nullable string is `Common.Truthy`, and
`value || fallback` is `Common.OrElse`. Files:

| file | module | models |
|---|---|---|
| common.dfy | Common | options, truthiness, filtering, `split`, `includes`, `toLowerCase`, `trim`, router paths |
| sorting.dfy | Sorting | `order(created_at, descending)` as an insertion sort |
| appointments.dfy | Appointments | the appointments hook: role branches, fetch, enrichment, claim; booking |
| appointment_views.dfy | AppointmentViews | status badge, empty state, list rows, page content |
| admin_appointments.dfy | AdminAppointments | the admin appointments table |
| admin_stats.dfy | AdminStats | the admin statistics cards |
| admin_doctors.dfy | AdminDoctors | the admin doctor list (placeholder data, optimistic edits) |
| doctor_dashboard.dfy | DoctorDashboard | the doctor dashboard's load, banner and periodic recount |
| catalog.dfy | Catalog | product listing, the card's label, product deletion |
| cart.dfy | Cart | add to cart, quantity buttons, removal, cart page fetch and total |
| navbar.dfy | Navbar | the navigation bar |
| routing.dfy | Routing | the shell's session state and routes, the sign-in page, the products page gate |
| product_form.dfy | ProductForm | the product form: draft, validator, edits, submit |
| prescription.dfy | Prescription | the prescription page |
| profile.dfy | Profile | the profile page |
| verify_prescription.dfy | VerifyPrescription | the server function that checks a prescription image against a product name |

## Model

| member | source | states |
|---|---|---|
| Common.Before | src/hooks/useAppointments.tsx:113 | `split(c)[0]`: the result has no `c`, is a prefix of the input, and stops at the first `c` or at the end |
| Common.AfterLast | src/pages/Prescription.tsx:129 | `split(c).pop()`: the result has no `c`, is a suffix of the input, and is preceded by a `c` unless it is the whole input |
| Common.Lower | src/pages/Prescription.tsx:54 | lower-casing keeps the length and folds every character independently |
| Common.Trim | src/components/ProductForm.tsx:40 | trimming yields the empty string exactly when the input is all white space |
| Common.ContainsIffOccurs | src/pages/Prescription.tsx:73 | the left-to-right `includes` scan succeeds exactly when the needle occurs at some position |
| Appointments.Query | src/hooks/useAppointments.tsx:51-88 | the query returns exactly the table's rows that the role's and tab's filter selects, each at most as often as in the table |
| Appointments.OnlyExactRolesAreSpecial | src/hooks/useAppointments.tsx:51-88 | only the exact roles "doctor" and "admin" get their own branch; no role, or any other string, is treated as a patient |
| Appointments.DoctorPendingIsSharedPool | src/hooks/useAppointments.tsx:52-56 | a doctor's pending tab is exactly the unassigned pending rows, the same for every doctor |
| Appointments.DoctorOtherTabsAreSelfScoped | src/hooks/useAppointments.tsx:59-70 | on the all, accepted and rejected tabs a doctor sees exactly the rows assigned to them, filtered by the tab's status |
| Appointments.DoctorPendingAndAllDisjoint | src/hooks/useAppointments.tsx:52-62 | no row is both in the shared pool and in a doctor's own list |
| Appointments.AdminSeesEverything | src/hooks/useAppointments.tsx:73-77 | the admin's all tab is the whole table in order; the other tabs filter on status alone |
| Appointments.PatientSeesOnlyOwnRows | src/hooks/useAppointments.tsx:78-88 | a patient sees exactly their own rows, filtered by the tab's status |
| Appointments.PatientName | src/hooks/useAppointments.tsx:107-114 | the display name is the e-mail's local part when the lookup finds a non-empty one, else "Patient-" and the first six characters of the id; never empty |
| Appointments.Fetch | src/hooks/useAppointments.tsx:34-143 | without a user, or when the query fails, the list is kept; otherwise it holds the query's rows in table order, each with its display name, and with the doctor's e-mail from the e-mail map when the row is assigned and the map knows the doctor, none otherwise |
| Appointments.FetchIsIdempotent | src/hooks/useAppointments.tsx:34-143 | fetching twice against an unchanged table gives the same list as fetching once |
| Appointments.SingleById | src/hooks/useAppointments.tsx:189-193 | the `.single()` lookup succeeds exactly when one row has the id, and returns that row |
| Appointments.UpdateById | src/hooks/useAppointments.tsx:221-227 | the update rewrites the status and doctor of every row with the id and leaves every other row in place |
| Appointments.Claim | src/hooks/useAppointments.tsx:161-259 | a claim succeeds exactly for a doctor, a single unassigned row and a successful write; otherwise the table is unchanged; the list is refreshed exactly after a claim or an already-assigned refusal; no user gives "not authenticated", a non-doctor "permission denied", a lookup without exactly one row "lookup failed", an assigned row "already assigned" and a failed write "update failed" |
| Appointments.ClaimTouchesOnlyTheUnassignedRow | src/hooks/useAppointments.tsx:208-227 | a claim never changes an assigned row; a changed row was the unassigned row with that id and is now the claiming doctor's, no longer pending |
| Appointments.UpdateByIdKeepsIdentity | src/hooks/useAppointments.tsx:221-227 | after the update there are as many rows with the id as before, and all of them carry the doctor |
| Appointments.SecondClaimChangesNothing | src/hooks/useAppointments.tsx:189-218 | once a request is claimed, any later claim on it is refused and leaves the table as it is; a doctor's second claim is refused as already assigned |
| Appointments.ClaimedLeavesPool | src/hooks/useAppointments.tsx:208-227 | after a claim the request is in no doctor's pending tab |
| Appointments.ClaimPreservesConsistency | src/hooks/useAppointments.tsx:221-227 | claims keep "unassigned exactly while pending" true of every row |
| Appointments.Book | src/pages/BookAppointment.tsx:46-105 | no user sends the visitor to sign-in; no contact is refused; a successful insert appends one pending, unassigned row carrying the form, resets the form and opens the appointments page; every failure keeps table and form |
| Appointments.BookedRowIsVisible | src/pages/BookAppointment.tsx:70-84 | a new booking is in every doctor's pending tab and in the patient's all tab |
| Appointments.BookPreservesInvariants | src/pages/BookAppointment.tsx:70-84 | booking with an unused id keeps the table consistent and its ids unique |
| AppointmentViews.BadgeLabel | src/components/appointments/AppointmentStatusBadge.tsx:10-35 | the three known statuses are shown capitalised; any other status is shown verbatim |
| AppointmentViews.EmptyStateAgreesWithList | src/components/appointments/AppointmentsEmptyState.tsx:12-25 | the empty state's text matches the list's "No <tab> appointments found" exactly on the three non-"all" tabs |
| AppointmentViews.EmptyStateMessagesDistinct | src/components/appointments/AppointmentsEmptyState.tsx:12-25 | different tabs give different empty-state messages |
| AppointmentViews.ListRows | src/components/appointments/AppointmentsList.tsx:64-90 | an empty list is one "nothing found" row; otherwise one row per appointment in order, with fallbacks for missing time and notes, and action buttons exactly for a doctor on the pending tab |
| AppointmentViews.HeaderMatchesRows | src/components/appointments/AppointmentsList.tsx:55-90 | the header's last column says "Actions" exactly when every row's last cell holds the buttons |
| AppointmentViews.PageContent | src/pages/AppointmentsPage.tsx:46-60 | loading shows the loader; an empty result shows the empty state of the remapped tab; otherwise a list of one row per appointment, whose header and rows are built for the remapped tab |
| AppointmentViews.PageNeverShowsGenericEmptyMessage | src/pages/AppointmentsPage.tsx:48-53 | because "all" is passed on as "pending", the page never shows "No appointments found" |
| AppointmentViews.DoctorAllTabShowsActionsOnOwnRows | src/pages/AppointmentsPage.tsx:56-60 | on a doctor's all tab every row is their own assigned row, yet every row gets Accept/Reject buttons |
| AppointmentViews.ActionOnAssignedRowIsRefused | src/hooks/useAppointments.tsx:208-218 | pressing those buttons on an own assigned row is refused, and the table does not change |
| AdminAppointments.LookupEmail | src/components/AdminAppointmentsList.tsx:76-86 | an e-mail is found exactly for a truthy id whose account has a non-empty address |
| AdminAppointments.AdminFetch | src/components/AdminAppointmentsList.tsx:61-96 | a failed fetch keeps the table; otherwise it is a newest-first permutation of all rows, with the patient's and the assigned doctor's e-mails looked up in the e-mail map, and no doctor e-mail on an unassigned row |
| AdminAppointments.AdminFetchShowsEveryRow | src/components/AdminAppointmentsList.tsx:61-64 | a row is in the admin table exactly when it is in the appointments table |
| AdminAppointments.AdminFetchMatchesAdminQuery | src/components/AdminAppointmentsList.tsx:61-64 | the admin table holds the same rows as the admin's all tab of the appointments page |
| AdminAppointments.NameFromEmail | src/components/AdminAppointmentsList.tsx:150-153 | "Unknown" for a falsy address, else the part before the first '@' |
| AdminAppointments.StatusBadgesAgree | src/components/AdminAppointmentsList.tsx:120-147 | the admin table's badge text equals the appointments list's for every status |
| AdminAppointments.Cells | src/components/AdminAppointmentsList.tsx:200-211 | each cell shows its field, or its fallback: "Not Assigned" without a doctor, "Not specified" without a time, "-" without notes |
| AdminAppointments.AdminTable | src/components/AdminAppointmentsList.tsx:193-214 | one placeholder row for an empty table, else one row of cells per appointment, in order |
| AdminAppointments.UnassignedRowCells | src/components/AdminAppointmentsList.tsx:200-204 | an unassigned row of a known patient shows the patient's local part and "Not Assigned" |
| AdminStats.RoleCount | src/components/AdminStats.tsx:38-43 | the number of users whose role is exactly the given one, never more than the users |
| AdminStats.PatientsAndDoctorsDisjoint | src/components/AdminStats.tsx:38-43 | the patient and doctor counts together never exceed the number of users |
| AdminStats.OtherRolesAreNotCounted | src/components/AdminStats.tsx:38-43 | a user of another role does not change a role's count |
| AdminStats.FetchStats | src/components/AdminStats.tsx:30-64 | if the user listing, the product count or the appointments query fails the cards keep their values; otherwise they hold the patient count, the doctor count, the product count (null read as 0) and the number of appointments whose status is "pending" |
| AdminStats.LoadedPendingCardCoversDoctorPool | src/components/AdminStats.tsx:50-62 | after a successful load the pending card is never below the doctors' pool count over the same table |
| AdminStats.TotalUsersOmitsOtherRoles | src/components/AdminStats.tsx:38-59 | the "total users" card leaves an admin account out, so patients and doctors add up to fewer than all users |
| AdminStats.AdminPendingCoversDoctorPool | src/components/AdminStats.tsx:51-54 | the admin's pending count is at least the doctors' pool, and equal to it in a consistent table |
| AdminStats.AssignedPendingRowIsCountedOnlyByAdmin | src/components/AdminStats.tsx:51-54 | an assigned row left at "pending" raises the admin's count but not the doctors' |
| DoctorDashboard.PendingCountIsPoolSize | src/pages/DoctorDashboard.tsx:40-44 | the dashboard's count is the size of every doctor's pending tab |
| DoctorDashboard.LoadDashboard | src/pages/DoctorDashboard.tsx:21-70 | no session goes to sign-in; otherwise loading ends, the name is the e-mail's local part, the count is the pool's size unless the query fails, and access is denied (with a move home) exactly for a non-doctor |
| DoctorDashboard.DeniedLoadStillCounts | src/pages/DoctorDashboard.tsx:40-70 | a denied visitor's load still stores the pool count before leaving |
| DoctorDashboard.PendingBanner | src/pages/DoctorDashboard.tsx:172-180 | the banner shows exactly for a positive count, singular exactly for a count of one |
| DoctorDashboard.Recount | src/pages/DoctorDashboard.tsx:98-120 | the periodic recount changes only the count, only when not loading and the query succeeds, and then to the pool's size |
| DoctorDashboard.RecountAfterLoadIsStable | src/pages/DoctorDashboard.tsx:98-120 | a recount over an unchanged table after a load changes nothing |
| AdminDoctors.Verify | src/components/AdminDoctorsList.tsx:67-69 | entries with the id become verified in place; every other entry is unchanged |
| AdminDoctors.Delete | src/components/AdminDoctorsList.tsx:89 | exactly the entries with the id are removed |
| AdminDoctors.DeleteKeepsOrder | src/components/AdminDoctorsList.tsx:89 | deleting distributes over concatenation, so the survivors keep their order |
| AdminDoctors.VerifyIdempotent | src/components/AdminDoctorsList.tsx:67-69 | verifying twice is verifying once |
| AdminDoctors.DeleteIdempotent | src/components/AdminDoctorsList.tsx:89 | deleting twice is deleting once |
| AdminDoctors.VerifyAfterDeleteIsNoOp | src/components/AdminDoctorsList.tsx:67-89 | verifying a deleted id changes nothing |
| AdminDoctors.VerifiedEntriesHideButton | src/components/AdminDoctorsList.tsx:140 | after verifying, no entry with that id shows the Verify button |
| AdminDoctors.MockDoctorsVerifyButtons | src/components/AdminDoctorsList.tsx:26-43 | of the two placeholder doctors only the second shows the button, and verifying it changes only that entry |
| Sorting.SortDesc | src/pages/Products.tsx:49 | `order('created_at', { ascending: false })`: the result is ordered by the key, largest first, and is a permutation of the input |
| Catalog.ProductListing | src/pages/Products.tsx:46-49 | the listing is a newest-first permutation of the products table |
| Catalog.ListingShowsEveryProduct | src/pages/Products.tsx:46-49 | a product is listed exactly when it is in the table |
| Catalog.LabelDependsOnlyOnPrescription | src/components/ProductCard.tsx:168 | the button reads "Buy with Prescription" exactly for prescription-only products; two products get the same label exactly when they agree on that flag |
| Catalog.DeleteProduct | src/components/ProductCard.tsx:35-55 | a successful delete removes exactly the products with the id; a failed one changes nothing |
| Catalog.DeleteAbsentIsNoOp | src/components/ProductCard.tsx:35-55 | deleting an id that no product has changes nothing |
| Cart.SetQuantity | src/components/ProductCard.tsx:90-93 | every row with the id gets the new quantity; every other row is unchanged |
| Cart.DeleteRow | src/components/CartItem.tsx:53-56 | exactly the rows with the id are removed |
| Cart.AddToCart | src/components/ProductCard.tsx:57-124 | no session goes to sign-in; a prescription product goes to the prescription page carrying id, name and price; otherwise a single existing line found by a successful lookup is raised by one, else (no line, several lines, or a failed lookup, whose error is never checked) a line of quantity one is appended; a failed write changes nothing |
| Cart.FailedLookupAddsSecondLine | src/components/ProductCard.tsx:80-107 | when the existing-line lookup fails, a user who already holds one line for the product ends up with two |
| Cart.MergeChangesOneRow | src/components/ProductCard.tsx:88-95 | with unique ids a merge raises exactly one row, the matched line, by one |
| Cart.AddedPairIsPresent | src/components/ProductCard.tsx:80-107 | after a successful add the user holds a line for the product with a positive quantity |
| Cart.AddPreservesInvariants | src/components/ProductCard.tsx:80-107 | adding with a fresh id keeps every quantity positive and the ids unique |
| Cart.RemoveFromCart | src/components/CartItem.tsx:50-76 | a successful removal deletes the line; a failed one changes nothing |
| Cart.UpdateQuantity | src/components/CartItem.tsx:26-48 | a quantity below one removes the line; otherwise it is stored; a failed write changes nothing |
| Cart.UpdateKeepsQuantitiesPositive | src/components/CartItem.tsx:26-48 | a quantity change never stores a quantity below one |
| Cart.ClicksKeepQuantitiesPositive | src/components/CartItem.tsx:99-108 | any sequence of minus and plus clicks, each succeeding or failing, keeps every quantity at least one |
| Cart.MinusAtOneRemoves | src/components/CartItem.tsx:99 | minus on a line of one removes it; on a larger line it lowers it by one |
| Cart.UserRows | src/pages/CartPage.tsx:31-41 | the fetch returns exactly the user's rows |
| Cart.Total | src/pages/CartPage.tsx:48-50 | the `reduce` over the cart's lines is never negative when prices are non-negative and quantities positive |
| Cart.TotalConcat | src/pages/CartPage.tsx:48-50 | the total of two carts laid end to end is the sum of their totals |
| Cart.TotalNonNegative | src/pages/CartPage.tsx:48-50 | with non-negative prices and positive quantities the total is never negative |
| Cart.ComputeTotal | src/pages/CartPage.tsx:48-50 | the loop computes the left fold of price times quantity |
| Cart.FetchCart | src/pages/CartPage.tsx:22-63 | loading ends on every path, the early return without a session included; no session goes to sign-in and changes nothing else; a failed query keeps items and total; otherwise the items are the user's rows and the total is their fold, or the old total when a product is missing; an empty cart totals zero |
| Cart.CartIsUserScoped | src/pages/CartPage.tsx:31-41 | the cart page never shows another user's line |
| Navbar.NavRole | src/components/Navbar.tsx:29 | the navbar's role is the metadata role when truthy, else "patient"; never empty |
| Navbar.CartCount | src/components/Navbar.tsx:53-66 | the badge count is the number of the user's cart rows, or the previous count when the query fails |
| Navbar.SignedIn | src/components/Navbar.tsx:23-32 | a session sets the user, the defaulted role and the refreshed count |
| Navbar.NavSessionChecked | src/components/Navbar.tsx:23-32 | the initial check signs in a session; without one only the session is cleared |
| Navbar.NavAuthChanged | src/components/Navbar.tsx:34-47 | an auth change signs in a session; a sign-out clears the user and the role and zeroes the count |
| Navbar.NavigationLinks | src/components/Navbar.tsx:74-104 | every list starts with Home and Products; without a session that is all |
| Navbar.LinksByRole | src/components/Navbar.tsx:74-104 | doctors get Dashboard and Profile, admins Admin Dashboard and Profile, everyone else Appointments, Book Appointment, Prescription and Profile |
| Navbar.CartBadge | src/components/Navbar.tsx:141-147 | the badge shows exactly for a session with a positive count, and shows the count |
| Navbar.BadgeCountsRowsNotQuantities | src/components/Navbar.tsx:53-61 | one line of quantity five shows a badge of 1 |
| Navbar.SignOutResets | src/components/Navbar.tsx:43-46 | after a sign-out only the two public links remain and no badge is shown |
| Navbar.RoleDefaultsAgreeOnBranch | src/components/Navbar.tsx:29 | the navbar defaults a missing role to "patient" and the shell to null, but both take the same branch |
| Navbar.EveryLinkRenders | src/components/Navbar.tsx:74-104 | after the same session answer, every link the navbar offers is a page the shell renders, never a redirect by the router |
| Navbar.SignedInLinksRender | src/components/Navbar.tsx:74-104 | for a signed-in user whose two role views agree, every link renders |
| Routing.MetaRole | src/App.tsx:34 | the shell's role is the metadata role exactly when it is truthy |
| Routing.SessionChecked | src/App.tsx:29-37 | the first session answer ends loading and records the session and role |
| Routing.AuthChanged | src/App.tsx:42-51 | an auth change records the session; a sign-out clears the role |
| Routing.Route | src/App.tsx:56-128 | nothing renders before the session check; afterwards a path renders its own page or redirects to another path; without a session the only redirect is to the sign-in page, and with one never to it |
| Routing.RouteBeforeAndAfterCheck | src/App.tsx:56-81 | nothing is rendered before the session check; afterwards the two public pages always render |
| Routing.SessionOnlyRoutes | src/App.tsx:84-127 | the session-only pages render exactly with a session, whatever the role, and redirect to sign-in otherwise |
| Routing.DashboardRoutes | src/App.tsx:96-113 | each dashboard renders exactly for a session of its role; a session of another role goes home; no session goes to sign-in |
| Routing.SignOutLocksProtectedRoutes | src/App.tsx:42-127 | after a sign-out every protected path redirects to sign-in |
| Routing.AuthCallFor | src/pages/Auth.tsx:46-93 | an empty field makes no call; otherwise sign-up carries the selected role and sign-in the credentials |
| Routing.DefaultSignUpRoleIsPatient | src/pages/Auth.tsx:16 | an untouched sign-up form registers a patient |
| Routing.AuthNavigation | src/pages/Auth.tsx:58-93 | only a successful sign-in navigates, to the role's landing page; a sign-up waits for confirmation |
| Routing.AuthOnLoad | src/pages/Auth.tsx:21-41 | an existing session is sent to the role's landing page when the page loads |
| Routing.ToggleMode | src/pages/Auth.tsx:191-195 | switching mode flips it, clears both fields and keeps the selected role, so the next submit makes no call |
| Routing.AuthPageAndRouteDisagreeOnlyForAdmin | src/pages/Auth.tsx:30-36 | the sign-in page and the shell's "/auth" route send a signed-in user to the same place except for an admin (products against admin dashboard) |
| Routing.ProductsOnLoad | src/pages/Products.tsx:20-40 | no session goes to sign-in; otherwise the admin flag holds exactly for the role "admin" |
| Routing.ClickAddProduct | src/pages/Products.tsx:73-81 | the button toggles the form for an admin and does nothing otherwise |
| Routing.AddFormOnlyForAdmins | src/pages/Products.tsx:73-84 | a non-admin never sees the product form, even after a click |
| Routing.AddFormToggleTwiceIsIdentity | src/pages/Products.tsx:73-81 | two clicks restore the state |
| ProductForm.Flags | src/components/ProductForm.tsx:37-54 | the error map flags a field exactly when its verdict is bad, with that field's message, and flags nothing else |
| ProductForm.ValidateAsWritten | src/components/ProductForm.tsx:37-54 | as written: name flagged exactly when blank, price exactly when not positive, stock exactly when not positive |
| ProductForm.StockZeroRejectedAsWritten | src/components/ProductForm.tsx:48-50 | a named product with price 1 and stock 0 is refused, with only the stock error, whose message says 0 is allowed |
| ProductForm.Validate | src/components/ProductForm.tsx:37-54 | as the messages describe: stock flagged exactly when negative; name and price as written |
| ProductForm.ValidatorsDifferOnlyAtZeroStock | src/components/ProductForm.tsx:48-50 | the two validators agree except at stock 0, where the as-written one adds only the stock error |
| ProductForm.DefaultDraftIsInvalid | src/components/ProductForm.tsx:22-30 | a fresh form has name and price errors, so it cannot be saved under either validator |
| ProductForm.ApplyEdit | src/components/ProductForm.tsx:78-83 | an edit changes only its own field and clears only that field's error; an unparsable number becomes 0 |
| ProductForm.UnparsablePriceIsRejected | src/components/ProductForm.tsx:167 | an unparsable price leads to a price error at the next validation |
| ProductForm.SubmitWith | src/components/ProductForm.tsx:56-76 | the errors are replaced by the given map, and the form is saved and closed exactly when the map is empty |
| ProductForm.ClosedIffNoFieldFlagged | src/components/ProductForm.tsx:56-59 | an error map over the three checked fields is empty exactly when none of them is flagged |
| ProductForm.Submit | src/components/ProductForm.tsx:56-76 | as written: the errors are replaced by the as-written validator's, and the form is saved exactly when the name is not blank, the price positive and the stock positive |
| ProductForm.SubmitIntended | src/components/ProductForm.tsx:56-76 | with the corrected validator: the form is saved exactly when the name is not blank, the price positive and the stock not negative |
| ProductForm.SubmitsDifferOnlyAtZeroStock | src/components/ProductForm.tsx:48-50 | the two submits agree on every stock but 0; every form the as-written one saves the corrected one saves too, and the corrected one saves more exactly on stock 0 |
| ProductForm.ZeroStockDraftSavedOnlyAsIntended | src/components/ProductForm.tsx:48-50 | the draft "Aspirin" at price 1 with stock 0 stays open as written and is saved as intended |
| Prescription.ChooseFile | src/pages/Prescription.tsx:30-45 | a PDF or image replaces the file and clears result and matches; no file or another type changes nothing |
| Prescription.ChosenFileIsSubmitted | src/pages/Prescription.tsx:30-45 | after an accepted file the next submit is not refused for want of a file, and a successful upload stores that file's path; a refused file leaves the next submit unchanged |
| Prescription.FileTypeExamples | src/pages/Prescription.tsx:33 | PDFs and PNGs pass the gate; plain text and Word files do not |
| Prescription.ValidatePrescription | src/pages/Prescription.tsx:84-91 | the found keywords are those the text contains, in their fixed order, and the text is valid exactly when it contains two of the three |
| Prescription.OneKeywordIsNotEnough | src/pages/Prescription.tsx:84-91 | a text mentioning only "doctor" is invalid and lists only that keyword |
| Prescription.FindMatchingProducts | src/pages/Prescription.tsx:61-82 | a failed query gives no matches; otherwise a product matches exactly when its lower-cased name occurs in the text |
| Prescription.MatchingKeepsStoreOrder | src/pages/Prescription.tsx:71-75 | matching distributes over concatenation, so matches keep the table's order |
| Prescription.MatchIgnoresNameCase | src/pages/Prescription.tsx:71-75 | two products whose names agree up to case both match or both do not |
| Prescription.StoredFileName | src/pages/Prescription.tsx:129-130 | the path is "<user>/<stamp>." followed by a dot-free suffix of the file name |
| Prescription.DotlessNameIsKeptWhole | src/pages/Prescription.tsx:129-130 | a name without a dot becomes the whole extension |
| Prescription.Submit | src/pages/Prescription.tsx:93-207 | no file does nothing; no user clears matches only; a failure of recognition, upload or record shows "Failed to process prescription" and writes no record and no cart line, though a failed record insert leaves the uploaded file in the bucket; a successful upload stores the file at its user, timestamp and extension path; otherwise one record is written whose status and result follow the keyword check, the matches are computed, and a valid check with a product appends one cart line; with a file and a user, the submit ends verified or invalid exactly when recognition, upload and record all succeed, and fails otherwise |
| Prescription.Conclude | src/pages/Prescription.tsx:139-192 | after the record insert succeeds, the verdict, the record, the matches, the result and the cart line follow the keyword check |
| Prescription.FailedInsertLeavesUpload | src/pages/Prescription.tsx:128-148 | the upload precedes the record insert, so a failed insert leaves the stored file in the bucket with no record pointing at it |
| Prescription.RecordPointsAtUpload | src/pages/Prescription.tsx:128-148 | a submit that writes a record has stored exactly one file, and the record's file path is that file |
| Prescription.CartFailureKeepsVerdict | src/pages/Prescription.tsx:154-179 | a failed cart insert changes neither the verdict, the record nor the page |
| Prescription.PrescriptionAddMayDuplicateLine | src/pages/Prescription.tsx:156-165 | a verified prescription inserts a new line even when the product is already in the cart, giving two lines for one pair |
| Profile.FromColumn | src/pages/ProfilePage.tsx:62-68 | a null column reads as the empty field |
| Profile.ToColumn | src/pages/ProfilePage.tsx:93-95 | an empty field is stored as null, exactly the empty one |
| Profile.FieldRoundTrip | src/pages/ProfilePage.tsx:62-95 | a field saved and read back is unchanged |
| Profile.ColumnRoundTrip | src/pages/ProfilePage.tsx:62-95 | a column read and saved back is unchanged, except that an empty string becomes null |
| Profile.SingleProfile | src/pages/ProfilePage.tsx:56-60 | the lookup succeeds exactly when one row has the id, and returns that row |
| Profile.LoadProfile | src/pages/ProfilePage.tsx:37-75 | loading ends on every path; no session goes to sign-in; otherwise e-mail and role come from the session, and the three fields from the single row, or stay as they were |
| Profile.LoadedPageIsShown | src/pages/ProfilePage.tsx:117-119 | after a load for a signed-in user the loading screen is gone, and a user with an e-mail has it in the form |
| Profile.UpdateRows | src/pages/ProfilePage.tsx:90-98 | every row with the id is rewritten from the form; every other row is unchanged |
| Profile.SaveProfile | src/pages/ProfilePage.tsx:80-115 | without a user, or on a failed write, nothing changes; a save rewrites exactly the user's rows with the form's fields, empty ones as null |
| Profile.UpdateCommutesWithLookup | src/pages/ProfilePage.tsx:90-98 | looking up the user's rows after the update equals updating the looked-up rows |
| Profile.SaveThenLoadShowsForm | src/pages/ProfilePage.tsx:56-98 | with one profile row, saving and loading again shows the saved name, phone and address |
| Profile.SaveWithoutUserWritesNothing | src/pages/ProfilePage.tsx:85-87 | without a user the save writes nothing and reports the missing user |
| VerifyPrescription.BearerToken | supabase/functions/verify-prescription/index.ts:99-100 | `split("Bearer ")[1]`: absent exactly when the header or the separator is missing; the token never contains the separator |
| VerifyPrescription.BearerHeaderGivesToken | supabase/functions/verify-prescription/index.ts:99-100 | a header whose only separator is followed by a separator-free token yields that token |
| VerifyPrescription.PlainBearerHeader | supabase/functions/verify-prescription/index.ts:99-100 | the header "Bearer <token>" yields the token |
| VerifyPrescription.Handle | supabase/functions/verify-prescription/index.ts:9-156 | preflight gives 200; a bad body 500; a missing file or name 400; a failed recognition or upload 500 with nothing stored; no text 200 "not matched" with nothing stored; a missing token 401 after the upload; a failed record insert 500 after the upload; otherwise exactly one record with status "approved" or "rejected" by the case-insensitive match, and 200 with the match |
| VerifyPrescription.NoTextStoresNothing | supabase/functions/verify-prescription/index.ts:67-75 | without detected text nothing is stored and the answer is "not matched" |
| VerifyPrescription.OcrFailureIsServerError | supabase/functions/verify-prescription/index.ts:60-62 | a failed recognition call is a 500 that stores nothing |
| VerifyPrescription.MissingTokenLeavesUpload | supabase/functions/verify-prescription/index.ts:84-108 | a request without a token is refused only after the file is stored, leaving an upload without a record |
| VerifyPrescription.MatchIgnoresCase | supabase/functions/verify-prescription/index.ts:80 | the match ignores case on both sides |
| VerifyPrescription.StatusVocabulariesDiffer | supabase/functions/verify-prescription/index.ts:117 | the server writes "approved" or "rejected", the prescription page "verified" or "rejected" |

## Left out

- The hosted backend is not modelled: no network, no row-level security, and no connection setup from environment variables. Its replies are parameters.
- Text recognition is reduced to its output. That covers the in-browser OCR worker on the prescription page and the vision API call, with its base64 encoding, in the server function.
- Concurrency: two doctors claiming the same request at once is not modelled. The claim is one sequential step between its lookup and its update.
- Realtime subscriptions and timers are not modelled. The dashboard's 30-second interval is a single `Recount` step.
- Toasts, spinners, refresh flags, console logging and all styling are not modelled.
- Dates and numbers are not formatted: `toLocaleDateString`, `toFixed` and the ISO timestamp are not modelled. Clock values are opaque parameters.
- The checkout button is not modelled, because it only shows a notice.
- These files only present data or are not part of this model's core: Hero, Services, Index, AppointmentsLoading, AppointmentsTabs, AppointmentActions, AdminUsersList, AdminDashboard and DoctorAppointments.
- `Common.Lower` folds ASCII letters only, and `Common.Trim` removes ASCII white space only. JavaScript's full Unicode case mapping and white-space set are not modelled.
- Appointments.Claim: a network failure of the `.single()` read (src/hooks/useAppointments.tsx:195-202) is not a separate parameter. The model covers it only as a lookup that finds zero or several rows, which gives the same "lookup failed" outcome.
- Prescription.Submit: the stored record's path is taken to be the path that was uploaded. The storage service's echo of that path is not modelled separately.
- Prescription.Submit: the result message's wording is not modelled. Only the success flag and the "Failed to process prescription" text are.
- AdminAppointments.AdminTable: the "Created" column's date rendering is not part of `Cells`.
- VerifyPrescription.Handle: the token is used directly as the user id, as the function does. Validating it as the access token of section 2.1 of RFC 6750 is not modelled.
- VerifyPrescription.Handle: a failed public-URL lookup is not modelled, because the function never checks it.
- Prices: the cart uses integer prices, which stands for exact cents. Floating-point rounding in the page's `reduce` is not modelled.

## Findings

| source | as written | input that shows it | evidently intended | confidence | as-written member | corrected member |
|---|---|---|---|---|---|---|
| src/components/ProductForm.tsx:48-50 | the test `!stock_quantity` (or a negative stock) also rejects a stock of 0, because 0 is falsy | a draft named "Aspirin" with price 1.0 and stock 0 is refused with "Stock quantity must be 0 or greater" | only a negative stock is refused, as the message says | not executed | ProductForm.Submit | ProductForm.SubmitIntended |

`ProductForm.Submit` models `handleSubmit` as written, on top of
`ProductForm.ValidateAsWritten`; `ProductForm.StockZeroRejectedAsWritten` and
`ProductForm.ZeroStockDraftSavedOnlyAsIntended` exhibit the refused draft.
`ProductForm.SubmitIntended` uses the corrected validator `ProductForm.Validate`
and saves exactly the well-formed drafts with a stock of 0 or more.
`ProductForm.ValidatorsDifferOnlyAtZeroStock` and
`ProductForm.SubmitsDifferOnlyAtZeroStock` prove the two agree on every other
stock.
