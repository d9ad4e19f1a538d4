# CampusEaters order core, modelled in Dafny

CampusEaters is a campus food-delivery service. Students request deliveries
from campus restaurants, restaurant staff move each order through the
workflow SENT → RECEIVED → SHIPPING → DELIVERED, and delivery robots drive
the food out while an RPLidar unit watches for obstacles. This project
models the logic at the core of the service and proves properties of it:

- the order-creation route (validation, item sanitising, the
  cross-restaurant check and order numbering) and the load-generation
  script that creates orders and advances them batch by batch;
- the user-profile route (the upsert keyed by email, error
  classification, the sorted listing) and the session helper the API
  routes share;
- the university e-mail allow-list, the sign-in card, the reset-password
  page and the delivery-request form;
- the restaurant order board and the student delivery tracker (status
  buttons, views, the progress timeline);
- the order-status e-mail (subjects, label, text body, and the rule that
  a failure never propagates);
- the site header's active-link rule;
- the lidar reader thread that groups measurements into scans, the camera
  view's danger border and radar overlay, and the nearest-obstacle readout.

Each source file is one module. `Util` holds the shared helpers: Option,
`filter`, `startsWith`/`includes`/`toLowerCase`, and number rendering.
`Orders` holds the status workflow and the order row that several files
share. Pure code is written as functions with lemmas. React component state
and database tables are classes whose methods say how the state changes.
An awaited call is split into a `Begin…` method and a `Complete…` method,
so the state between the two steps can be stated. Database answers, thrown
errors, clock values, fresh identifiers and random choices are method
parameters or nondeterministic choices (`:|`).

Some behaviour of the code that a reader might not expect, which the model
follows:

- Profiles are looked up by the exact email string. Nothing is lower-cased
  before the lookup.
- The order-creation route sends no status e-mail, and it checks neither
  that the restaurant nor that the user exists. It takes `userId` from the
  request body.
- The cross-restaurant check ignores item identifiers that match no menu
  row.
- No modelled route enforces the status transitions. The board only offers
  forward buttons.
- The profile route does not apply the e-mail allow-list.
- After its session check, the reset-password page shows the form even
  when the URL carries no recovery token.
- Password lengths are JavaScript string lengths, counted in UTF-16 code
  units, so a character outside the Basic Multilingual Plane counts twice.

## Model

| member | source | states |
|---|---|---|
| Orders.IndexOf | website/src/components/RestaurantOrders.tsx:37 | each status has exactly one position in the workflow list |
| Orders.Next | website/src/components/RestaurantOrders.tsx:37 | the next status is one position further on, and there is none after DELIVERED |
| Orders.Name | website/src/components/RestaurantOrders.tsx:37 | the status as the database and the JSON payloads spell it |
| Orders.StatusFlowIsAnEnumeration | website/src/components/RestaurantOrders.tsx:37 | every status is in the workflow, and two statuses share a position only if they are equal |
| Orders.MaxOrderNumber | website/src/app/api/orders/route.ts:15-24 | the maximum is absent exactly for an empty table, bounds every stored number and is attained by a row |
| Orders.NextOrderNumberAboveAll | website/src/app/api/orders/route.ts:15-24 | the next number is 1001 on an empty table, is above every stored number, and is one more than some stored number otherwise |
| Orders.NextOrderNumber | website/src/app/api/orders/route.ts:15-24 | one more than the largest stored number, or 1001 for an empty table (see NextOrderNumberAboveAll) |
| Orders.ActiveOrdersExact | website/src/components/RestaurantOrders.tsx:112-115 | an order is active exactly when it is listed and not delivered, in listing order |
| Orders.ActivePastPartition | website/src/components/TrackDelivery.tsx:87-94 | active and past orders split the listing as a multiset, each order falls in exactly one of the two, and order is kept |
| Orders.ActiveOrders | website/src/components/RestaurantOrders.tsx:112-115 | the orders not yet delivered, in listing order (see ActiveOrdersExact) |
| Orders.PastOrders | website/src/components/TrackDelivery.tsx:87-94 | the delivered orders, in listing order (see ActivePastPartition) |
| CreateOrderRoute.MissingRequiredFields | website/src/app/api/orders/route.ts:30-41 | a restaurant, user or location is missing or empty, or the item list is missing or empty |
| CreateOrderRoute.IsUsableItem | website/src/app/api/orders/route.ts:44 | the filter test: a non-empty menu item id and a positive quantity |
| CreateOrderRoute.Sanitize | website/src/app/api/orders/route.ts:43-48 | no more items than were given, and every kept item has an identifier and a positive quantity |
| CreateOrderRoute.SanitizeOne | website/src/app/api/orders/route.ts:43-48 | one item yields at most one line item, which exists exactly when the item has an identifier and a positive quantity |
| CreateOrderRoute.SanitizeConcat | website/src/app/api/orders/route.ts:43-48 | sanitising keeps the input order: it distributes over concatenation |
| CreateOrderRoute.SanitizeEmptyIff | website/src/app/api/orders/route.ts:50-52 | nothing survives exactly when no item has an identifier and a positive quantity |
| CreateOrderRoute.SanitizeKeepsUsable | website/src/app/api/orders/route.ts:43-48 | usable items are carried over one for one, with their identifiers and quantities |
| CreateOrderRoute.FoundMenuItems | website/src/app/api/orders/route.ts:55-62 | the menu rows some sanitised item names, in table order |
| CreateOrderRoute.FindForeign | website/src/app/api/orders/route.ts:67-70 | nothing is found iff every row belongs to the restaurant; a found row belongs to another restaurant |
| CreateOrderRoute.CrossCheckRejectsIff | website/src/app/api/orders/route.ts:55-70 | the request is refused iff some item names a menu row of another restaurant |
| CreateOrderRoute.UnknownItemNotRejected | website/src/app/api/orders/route.ts:55-70 | an item that matches no menu row never changes the outcome of the check |
| CreateOrderRoute.Accepted | website/src/app/api/orders/route.ts:26-70 | the body parsed, has every field, keeps a usable item and names no foreign menu row |
| CreateOrderRoute.StatusCode | website/src/app/api/orders/route.ts:39-99 | 201, 400 or 500 for a created order, a refused request or a failure |
| CreateOrderRoute.OrderDatabase.Post | website/src/app/api/orders/route.ts:26-101 | 201 iff every check passes and no database call fails; the created row has the next number, status SENT, the body's fields and the sanitised items; 400 iff a check fails; 500 carries the fixed message; the table changes only on 201 |
| CreateOrderRoute.CreatedOrderProperties | website/src/app/api/orders/route.ts:74-94 | a created order has a number above all earlier ones, at least one item, positive quantities, and only items of its own restaurant |
| OrderLoad.PickN | website/scripts/order-load.ts:41-44 | takes min(n, length) elements, a sub-multiset of the input |
| OrderLoad.ItemIds | website/scripts/order-load.ts:51-74 | the identifiers of the items, position by position |
| OrderLoad.GeneratedOrder | website/scripts/order-load.ts:51-74 | what createOrder inserts: the given number, restaurant and user, status SENT, one to three distinct menu items of the restaurant (none for an empty menu), each with quantity 1 or 2 |
| OrderLoad.OldestBatch | website/scripts/order-load.ts:78-83 | the answer of the oldest-first query: distinct rows of the status, oldest first, at most the batch size, all of them when fewer exist, none older left behind |
| OrderLoad.SelectOldest | website/scripts/order-load.ts:76-90 | picks distinct orders of the given status, oldest first, at most the batch size and all of them when fewer exist, and none older is left behind |
| OrderLoad.OldestUnpicked | website/scripts/order-load.ts:78-82 | finds an order of the status outside the batch that no other such order predates, or reports that none is left |
| OrderLoad.ExtendBatch | website/scripts/order-load.ts:78-82 | adding the oldest remaining order keeps the batch oldest-first |
| OrderLoad.UpdateMany | website/scripts/order-load.ts:92-105 | exactly the rows whose id is in the set get the new status; nothing else changes |
| OrderLoad.Advanced | website/scripts/order-load.ts:92-105 | exactly the picked positions get the new status |
| OrderLoad.UpdateByIdsIsUpdateByPosition | website/scripts/order-load.ts:92-105 | with unique ids, updating by the picked ids is updating the picked positions |
| OrderLoad.PhaseMovesOneStep | website/scripts/order-load.ts:77-105 | a phase moves only orders of its source status, one step forward |
| OrderLoad.FulfillmentOnlyMovesForward | website/scripts/order-load.ts:76-121 | after the three phases every order is where it was or further along the workflow |
| OrderLoad.LongerThanAll | website/scripts/order-load.ts:51-74 | yields an identifier longer than, so different from, every stored one |
| OrderLoad.LoadDatabase.CreateOrder | website/scripts/order-load.ts:51-74 | appends one order, keeping every earlier row: the given number, restaurant and user, status SENT, one to three of the restaurant's menu items (none for an empty menu), each with quantity 1 or 2 |
| OrderLoad.LoadDatabase.AdvancePhase | website/scripts/order-load.ts:77-105 | the table becomes the old table with the oldest batch of one status moved to the next |
| OrderLoad.LoadDatabase.AdvanceFulfillment | website/scripts/order-load.ts:76-121 | three phases in order, SENT then RECEIVED then SHIPPING, each on the result of the one before; no order moves backwards |
| OrderLoad.LoadDatabase.CreateBatch | website/scripts/order-load.ts:145-150 | appends OrdersPerMinute rows numbered consecutively from the given number, each created for a listed restaurant and user with status SENT, and keeps every earlier row |
| OrderLoad.LoadDatabase.RunMinute | website/scripts/order-load.ts:144-155 | appends OrdersPerMinute rows numbered consecutively from the given number, each created for a listed restaurant and user with status SENT; then one fulfilment pass over that table: the oldest batch of SENT rows becomes RECEIVED, then the oldest batch of RECEIVED rows becomes SHIPPING, then the oldest batch of SHIPPING rows becomes DELIVERED, and the result is the new table (MinuteVia with the returned record); every earlier row stays in place with only its status moved forward |
| OrderLoad.LoadDatabase.RunMinutes | website/scripts/order-load.ts:139-163 | ten minutes: the returned trace runs from the old table to the new one through DurationMinutes + 1 states, and each state comes from the one before by that minute's creation of OrdersPerMinute SENT rows (numbered on from the rows created so far) followed by its three-batch fulfilment pass (MinutesVia); overall the appended rows are numbered consecutively from the next order number, each created for a listed restaurant and user, earlier rows only move forward, and the new numbers are fresh |
| OrderLoad.LoadDatabase.RunLoad | website/scripts/order-load.ts:123-171 | without restaurants or users nothing changes; otherwise the table passes through DurationMinutes minutes, each one creation batch of SENT rows followed by one three-batch fulfilment pass (MinutesVia, starting from the next order number), the appended rows are numbered consecutively from the next order number, each created for a listed restaurant and user, every earlier row only moves forward, and the new numbers are fresh (FreshNumbers) |
| OrderLoad.LoadNumbersFresh | website/scripts/order-load.ts:139-150 | rows appended with consecutive numbers from the next order number, beside earlier rows that only move forward, carry increasing numbers above every earlier number, and unique numbers stay unique |
| Profiles.FindByEmail | website/src/lib/api-auth.ts:25-35 | absent iff no row has the email; a found row is in the table and has the email |
| Profiles.FindByEmailUnique | website/src/lib/api-auth.ts:25-35 | with unique emails the lookup finds the one row with that email |
| ApiAuth.GetAuthUserAndProfile | website/src/lib/api-auth.ts:19-42 | null iff there is no session or its email is empty; otherwise the identity of the session and the profile with that email |
| ApiAuth.ThreeWayOutcome | website/src/lib/api-auth.ts:19-42 | no identity, an identity without a profile, or an identity with its profile, each in exactly its own case |
| ApiAuth.Unauthorized | website/src/lib/api-auth.ts:44-46 | status 401 with the sign-in message |
| ApiAuth.Forbidden | website/src/lib/api-auth.ts:49-51 | status 403 with the given message, or the default message when none is given |
| EmailDomains.Split | website/src/lib/auth.ts:4 | at least one piece, and no piece holds the separator |
| EmailDomains.JoinSplit | website/src/lib/auth.ts:4 | joining the pieces of a split gives back the string |
| EmailDomains.SplitJoin | website/src/lib/auth.ts:4 | splitting a join of separator-free pieces gives back the pieces |
| EmailDomains.Domain | website/src/lib/auth.ts:4 | the field after the first '@', or '' when there is none (see DomainIsSecondField) |
| EmailDomains.DomainIsSecondField | website/src/lib/auth.ts:4 | the domain is the second field between '@' signs |
| EmailDomains.AllowedIsCaseInsensitive | website/src/lib/auth.ts:3-7 | lower-casing the address never changes the verdict |
| EmailDomains.NoAtIsRefused | website/src/lib/auth.ts:3-7 | an address without '@' has an empty domain and is refused |
| EmailDomains.IsAllowedEmail | website/src/lib/auth.ts:1-7 | the lower-cased address's domain is one of the listed domains (see AllowedIffDomainListed) |
| EmailDomains.DomainAfterFirstAt | website/src/lib/auth.ts:4 | for a local part without '@', the domain is the first '@'-field after it |
| EmailDomains.DomainOfTwoAts | website/src/lib/auth.ts:4 | the domain of local@domain@more is domain |
| EmailDomains.AllowedIffDomainListed | website/src/lib/auth.ts:1-7 | local@domain is allowed iff the lower-cased domain is ut.edu or spartans.ut.edu |
| EmailDomains.FurtherPartsIgnored | website/src/lib/auth.ts:3-7 | text after a second '@' never changes the verdict |
| EmailDomains.ListedDomainsAccepted | website/src/lib/auth.ts:1-7 | any local part at ut.edu or at spartans.ut.edu is accepted |
| EmailDomains.UpperCaseDomainAccepted | website/src/lib/auth.ts:3-7 | UT.EDU is accepted |
| EmailDomains.TrailingPartIgnored | website/src/lib/auth.ts:3-7 | local@ut.edu@anything is accepted |
| EmailDomains.UnlistedDomainsRefused | website/src/lib/auth.ts:1-7 | gmail.com is refused, and so is x.ut.edu: the match is exact, not by suffix |
| AuthCard.Toggle | website/src/components/auth/AuthCard.tsx:157-159 | toggling always changes the mode |
| AuthCard.ToggleInvolution | website/src/components/auth/AuthCard.tsx:157-159 | toggling twice gives back the mode |
| AuthCard.NormalizeRedirect | website/src/components/auth/AuthCard.tsx:127 | the redirect path, given a leading '/' when it lacks one (see NormalizeRedirectProperties) |
| AuthCard.EmailRedirectTo | website/src/components/auth/AuthCard.tsx:127 | the window origin followed by the normalised redirect path |
| AuthCard.NormalizeRedirectProperties | website/src/components/auth/AuthCard.tsx:127 | the redirect path starts with '/', is the path or '/' + path, is kept iff it already starts with '/', and normalising twice is normalising once |
| AuthCard.SubmitGate | website/src/components/auth/AuthCard.tsx:110-118 | a submission goes ahead iff both fields are filled and the address is on the allow-list |
| AuthCard.AuthCardState.constructor | website/src/components/auth/AuthCard.tsx:85-88 | the given mode, empty fields, not submitting, no call pending |
| AuthCard.AuthCardState.SetEmail | website/src/components/auth/AuthCard.tsx:229 | the email field takes the input |
| AuthCard.AuthCardState.SetPassword | website/src/components/auth/AuthCard.tsx:242 | the password field takes the input |
| AuthCard.AuthCardState.ToggleAuthMode | website/src/components/auth/AuthCard.tsx:157-159 | the mode becomes its toggle; nothing else changes |
| AuthCard.AuthCardState.HandleSubmit | website/src/components/auth/AuthCard.tsx:107-155 | a refused submission changes nothing and makes no call; otherwise isSubmitting is raised and the sign-up or sign-in call is pending with the form's fields |
| AuthCard.AuthCardState.CompleteAuthCall | website/src/components/auth/AuthCard.tsx:131-154 | isSubmitting is lowered on every path; a successful sign-up switches to sign-in and clears the password; otherwise mode and fields stay |
| AuthCard.AuthCardState.BeginSignOut | website/src/components/auth/AuthCard.tsx:92-105 | the sign-out call is pending and isSubmitting is raised |
| AuthCard.AuthCardState.CompleteSignOut | website/src/components/auth/AuthCard.tsx:92-105 | isSubmitting is lowered; the fields are cleared only when sign-out succeeds |
| ResetPassword.HasRecoveryToken | website/src/app/reset-password/page.tsx:28-36 | the hash is non-empty and mentions access_token or type=recovery (see RecoveryTokenIsSubstringTest) |
| ResetPassword.TokenInUrl | website/src/app/reset-password/page.tsx:174-176 | a window exists and its hash carries a recovery token |
| ResetPassword.RecoveryTokenIsSubstringTest | website/src/app/reset-password/page.tsx:28-36 | the token test holds iff the hash contains access_token or type=recovery; an empty hash fails it |
| ResetPassword.RecoveryFragmentRecognised | website/src/app/reset-password/page.tsx:174-176 | a hash carrying either fragment anywhere is recognised |
| ResetPassword.ValidatePasswords | website/src/app/reset-password/page.tsx:122-135 | accepted iff filled, at least six UTF-16 code units long and equal to the confirmation; each refusal comes from its own check, in the code's order |
| ResetPassword.LengthCountsCodeUnits | website/src/app/reset-password/page.tsx:127 | three characters beyond the Basic Multilingual Plane pass the length check, as does any six-character password |
| Util.Utf16Length | website/src/app/reset-password/page.tsx:127 | `length` counts UTF-16 code units: between one and two per character, exactly one per character iff none lies beyond the Basic Multilingual Plane |
| Util.ToLower | website/src/lib/auth.ts:4 | `toLowerCase` keeps the length and lower-cases character by character (ASCII letters only) |
| Util.StartsWithIffPrefix | website/src/components/SiteHeader.tsx:24-28 | `startsWith` (the StartsWith predicate) holds exactly when the string is the prefix followed by some string |
| Util.ContainsIffOccurs | website/src/app/api/users/route.ts:102-111 | `includes` (the Contains predicate) holds exactly when the substring occurs at some position of the string |
| Util.Filter | website/src/components/RestaurantOrders.tsx:113 | `filter` returns no more elements than it was given, each one given and satisfying the predicate |
| Util.FilterMembership | website/src/components/RestaurantOrders.tsx:113 | an element is in the filtered sequence exactly when it is in the input and satisfies the predicate |
| Util.IntToString | website/src/lib/email.ts:122 | the template literal renders an integer as a non-empty string |
| Util.IntToStringInjective | website/src/lib/email.ts:122 | two integers render the same exactly when they are equal |
| Util.NatToStringValue | website/src/lib/email.ts:122 | the decimal digits of a non-negative number read back as that number |
| ResetPassword.SubmitCalls | website/src/app/reset-password/page.tsx:119-171 | the auth and router calls of one submission, by the validation result, the session read and the update's error |
| ResetPassword.SubmitToast | website/src/app/reset-password/page.tsx:119-171 | the toast a submission ends with: the refusal, the invalid link, the update error, or success |
| ResetPassword.SubmitCallsProperties | website/src/app/reset-password/page.tsx:119-171 | the password is updated only after the checks pass and a session exists; sign-out and the redirect to sign-in follow only a successful update |
| ResetPassword.View | website/src/app/reset-password/page.tsx:178-225 | the form appears iff loading is over; the invalid-link card iff still loading without a token in the URL |
| ResetPassword.CheckSessionClearsLoading | website/src/app/reset-password/page.tsx:63-108 | whether the delayed session check clears the loading flag, by its mounted checks and session reads |
| ResetPassword.CheckSessionAlwaysEndsLoading | website/src/app/reset-password/page.tsx:63-108 | the session check ends loading on every path that finds the page mounted |
| ResetPassword.ResetPasswordPage.constructor | website/src/app/reset-password/page.tsx:18-21 | empty fields, not submitting, loading |
| ResetPassword.ResetPasswordPage.OnAuthStateChange | website/src/app/reset-password/page.tsx:41-60 | loading ends on a recovery event, or on a sign-in with a session, while mounted |
| ResetPassword.ResetPasswordPage.CheckSession | website/src/app/reset-password/page.tsx:63-108 | loading ends as the session-check paths say, and otherwise stays |
| ResetPassword.ResetPasswordPage.HandleSubmit | website/src/app/reset-password/page.tsx:119-171 | the calls and the toast are those of the submit rules; isSubmitting is down again after any submission that passes the checks |
| DeliveryRequest.Toggled | website/src/components/DeliveryRequest.tsx:128-138 | drops a selected item, else selects it with quantity 1 (see ToggleEffect) |
| DeliveryRequest.WithQuantity | website/src/components/DeliveryRequest.tsx:140-145 | stores max(1, q) under the item (see UpdatesKeepQuantitiesPositive) |
| DeliveryRequest.ToggleEffect | website/src/components/DeliveryRequest.tsx:128-138 | toggling removes a selected item, adds an unselected one with quantity 1, and leaves every other entry alone |
| DeliveryRequest.ToggleTwiceRestores | website/src/components/DeliveryRequest.tsx:128-138 | toggling an absent item twice gives back the selection |
| DeliveryRequest.UpdatesKeepQuantitiesPositive | website/src/components/DeliveryRequest.tsx:128-145 | both updates keep every quantity at least 1; the quantity update stores max(1, q) under the item only |
| DeliveryRequest.Entries | website/src/components/DeliveryRequest.tsx:168-176 | one item per selected entry, with its quantity, each identifier once |
| DeliveryRequest.IsBlank | website/src/components/DeliveryRequest.tsx:155 | the location is nothing but white space |
| DeliveryRequest.SubmitGate | website/src/components/DeliveryRequest.tsx:147-158 | a submission goes ahead iff there is a user, a restaurant, a non-blank location and a non-empty selection |
| DeliveryRequest.SubmitDisabled | website/src/components/DeliveryRequest.tsx:314-323 | the button is disabled while loading or submitting, or without a restaurant, a user or a selection |
| DeliveryRequest.DisabledMirrorsGate | website/src/components/DeliveryRequest.tsx:314-323 | with the button enabled, a submission goes ahead iff the location is not blank; when the checks pass, the button is disabled iff loading or submitting |
| DeliveryRequest.FormBodyPassesRouteChecks | website/src/components/DeliveryRequest.tsx:168-176 | the body built from a valid form passes the route's field checks, and sanitising keeps every item |
| DeliveryRequest.DeliveryRequestForm.constructor | website/src/components/DeliveryRequest.tsx:39-45 | no restaurant, location or selection, no user, loading, not submitting |
| DeliveryRequest.DeliveryRequestForm.SetDeliveryLocation | website/src/components/DeliveryRequest.tsx:257 | the location takes the input |
| DeliveryRequest.DeliveryRequestForm.SetRestaurant | website/src/components/DeliveryRequest.tsx:118-121 | choosing another restaurant clears the selection; choosing the same one keeps it |
| DeliveryRequest.DeliveryRequestForm.ToggleMenuItem | website/src/components/DeliveryRequest.tsx:128-138 | the selection becomes its toggle, and quantities stay positive |
| DeliveryRequest.DeliveryRequestForm.UpdateQuantity | website/src/components/DeliveryRequest.tsx:140-145 | the selection becomes its quantity update, and quantities stay positive |
| DeliveryRequest.DeliveryRequestForm.BeginSubmit | website/src/components/DeliveryRequest.tsx:147-176 | a refused submission sends nothing; otherwise isSubmitting is raised and the body carries the form's fields and one item per selected entry |
| DeliveryRequest.DeliveryRequestForm.CompleteSubmit | website/src/components/DeliveryRequest.tsx:179-193 | isSubmitting is lowered; restaurant, location and selection are reset only after success |
| RestaurantOrders.NextStatuses | website/src/components/RestaurantOrders.tsx:221 | the workflow statuses at or after the current one (see NextStatusesIsSuffix) |
| RestaurantOrders.IsCompleted | website/src/components/RestaurantOrders.tsx:277 | a status before the order's current one |
| RestaurantOrders.ButtonDisabled | website/src/components/RestaurantOrders.tsx:283 | a button is disabled for a completed status or while its order is updating |
| RestaurantOrders.RestaurantIdOf | website/src/components/RestaurantOrders.tsx:59 | the profile's restaurant, or none without a profile |
| RestaurantOrders.NextStatusesIsSuffix | website/src/components/RestaurantOrders.tsx:220-221 | the offered statuses are the workflow from the current status on, current status first |
| RestaurantOrders.OfferedButtons | website/src/components/RestaurantOrders.tsx:276-283 | no offered status is completed; all buttons are enabled unless this order is updating, and all are disabled while it is |
| RestaurantOrders.View | website/src/components/RestaurantOrders.tsx:117-204 | the skeleton iff loading or fetching; a listed board holds exactly the non-empty active orders |
| RestaurantOrders.ViewPrecedence | website/src/components/RestaurantOrders.tsx:117-204 | once loading ends: a profile error shows first; then a non-restaurant account sees the access card; then a restaurant account without a linked restaurant the missing-link card; a linked restaurant account with some undelivered order always gets the list of exactly its undelivered orders; orders are listed only to such an account; all delivered shows the caught-up card |
| RestaurantOrders.RestaurantOrdersPage.constructor | website/src/components/RestaurantOrders.tsx:55-57 | no orders, not fetching, no order updating |
| RestaurantOrders.RestaurantOrdersPage.BeginFetch | website/src/components/RestaurantOrders.tsx:61-78 | without a linked restaurant no request is made; otherwise fetching starts on the restaurant's listing path |
| RestaurantOrders.RestaurantOrdersPage.CompleteFetch | website/src/components/RestaurantOrders.tsx:61-78 | the orders become the response, or stay on failure; fetching ends on every path |
| RestaurantOrders.RestaurantOrdersPage.BeginStatusUpdate | website/src/components/RestaurantOrders.tsx:86-110 | the order is marked as updating, and the PATCH goes to that order's status path |
| RestaurantOrders.RestaurantOrdersPage.CompleteStatusUpdate | website/src/components/RestaurantOrders.tsx:86-110 | the updating mark is cleared on every path; orders are refetched only after a successful PATCH |
| TrackDelivery.FindIndex | website/src/components/TrackDelivery.tsx:185 | -1 iff the element is absent; otherwise its first position |
| TrackDelivery.ActiveStepIndex | website/src/components/TrackDelivery.tsx:185 | the timeline position of the order's status |
| TrackDelivery.ActiveStepIsWorkflowPosition | website/src/components/TrackDelivery.tsx:41-66 | the active step is the status's position in the workflow |
| TrackDelivery.ProgressValue | website/src/components/TrackDelivery.tsx:186 | the active step over the last step index, times 100 (see ProgressProperties) |
| TrackDelivery.ProgressProperties | website/src/components/TrackDelivery.tsx:186 | progress lies in [0, 100], is 100 iff delivered, and grows strictly along the workflow |
| TrackDelivery.ProgressIsStepThirds | website/src/components/TrackDelivery.tsx:186 | the progress is the workflow position times 100/3 |
| TrackDelivery.StepCompleted | website/src/components/TrackDelivery.tsx:278 | a node is completed when the order is delivered or its status lies after the node |
| TrackDelivery.StepActive | website/src/components/TrackDelivery.tsx:279 | a node is active when it is the order's status |
| TrackDelivery.NodeColour | website/src/components/TrackDelivery.tsx:290-295 | green when completed, else blue when active, else slate |
| TrackDelivery.TimelineNodes | website/src/components/TrackDelivery.tsx:276-279 | exactly the current status's node is active; earlier nodes are completed; all are completed once delivered |
| TrackDelivery.Connector | website/src/components/TrackDelivery.tsx:256-266 | no connector after the last node; otherwise completed, current or pending by the active step |
| TrackDelivery.ConnectorsFollowNodes | website/src/components/TrackDelivery.tsx:256-259 | no connector after the last node; any other connector has its node's colour |
| TrackDelivery.View | website/src/components/TrackDelivery.tsx:146-168 | the nested conditional of the card body (see ViewPrecedence) |
| TrackDelivery.ViewPrecedence | website/src/components/TrackDelivery.tsx:146-168 | the auth spinner while auth loads; signed out, the sign-in notice; signed in, the orders spinner while orders load; then the empty notice when there are no orders; otherwise the tabs, whose active list is ActiveOrders and past list PastOrders of the orders: undelivered and delivered orders respectively, together a permutation of the orders |
| UsersRoute.MissingRequired | website/src/app/api/users/route.ts:71 | email, first name or last name is missing or empty |
| UsersRoute.UpdatedRow | website/src/app/api/users/route.ts:77-83 | the update branch: names replaced, phone and restaurant replaced or nulled, role kept unless one is sent |
| UsersRoute.CreatedRow | website/src/app/api/users/route.ts:84-91 | the create branch: the body's fields, null for an absent phone or restaurant, role USER unless one is sent |
| UsersRoute.Upsert | website/src/app/api/users/route.ts:75-92 | the row with the e-mail is updated, or a new row is appended (see UpsertStoresOneProfile) |
| UsersRoute.EmailIndex | website/src/app/api/users/route.ts:75-92 | -1 iff no row has the email; otherwise the first row that does |
| UsersRoute.UpsertStoresOneProfile | website/src/app/api/users/route.ts:75-92 | after the upsert exactly one row has the email, carrying the body's fields; emails stay unique; other rows are unchanged |
| UsersRoute.UpsertRoleRules | website/src/app/api/users/route.ts:77-91 | a new row defaults to USER; an update keeps the old role when none is sent |
| UsersRoute.UpsertIdempotent | website/src/app/api/users/route.ts:75-92 | repeating the same upsert changes nothing |
| UsersRoute.IsUniqueViolation | website/src/app/api/users/route.ts:102 | an Error whose message contains either unique-violation phrase |
| UsersRoute.IsConnectionFailure | website/src/app/api/users/route.ts:106-111 | an Error whose message has one of the connection phrases, or whose code is P5000 |
| UsersRoute.ClassifyError | website/src/app/api/users/route.ts:102-127 | 409 iff a unique violation; 503 iff a connection failure otherwise, with the paused or unreachable details and the dashboard hint; 500 for the rest, carrying the Error's message, or "Unknown error" for a non-Error value |
| UsersRoute.DuplicateKeyIsConflict | website/src/app/api/users/route.ts:102-104 | any error whose message contains 'Unique constraint', whatever its code, yields 409 with the duplicate-user message |
| UsersRoute.UnreachableDatabaseIsUnavailable | website/src/app/api/users/route.ts:106-121 | a message containing "Can't reach database" and neither unique-violation phrase yields 503 with the paused-database details and the hint |
| UsersRoute.AccelerateCodeIsUnavailable | website/src/app/api/users/route.ts:106-121 | code P5000 yields 503 with the hint, for every message containing neither unique-violation phrase |
| UsersRoute.StrLeqTotal | website/src/app/api/users/route.ts:44-47 | string order is total |
| UsersRoute.NameLeqTotal | website/src/app/api/users/route.ts:44-47 | the first-name-then-last-name order is total |
| UsersRoute.InsertByName | website/src/app/api/users/route.ts:44-47 | inserting into a sorted listing keeps it sorted and adds exactly the one row |
| UsersRoute.SortByName | website/src/app/api/users/route.ts:44-47 | the listing is a permutation of the table, sorted by first name and then last name |
| UsersRoute.Get | website/src/app/api/users/route.ts:5-55 | 500 iff the read fails; otherwise with an email the row with that email or 404, and without one every row as a sorted permutation |
| UsersRoute.GetStatus | website/src/app/api/users/route.ts:5-55 | 200 for a found row or the listing, 404 for no row, 500 for a failed read |
| UsersRoute.UserTable.Post | website/src/app/api/users/route.ts:57-129 | 201 iff the body parses, has the required fields and the upsert succeeds, and the table becomes the upsert; 400 for missing fields; errors are classified; the table changes only on success |
| StatusEmail.Subject | website/src/lib/email.ts:24-41 | each status's subject: its phrase and the service name |
| StatusEmail.Message | website/src/lib/email.ts:24-41 | each status's message line |
| StatusEmail.SubjectsDistinct | website/src/lib/email.ts:24-41 | every status has its own subject |
| StatusEmail.StatusLabel | website/src/lib/email.ts:64 | the label has the name's length, keeps its first character and lower-cases the rest |
| StatusEmail.SentLabel | website/src/lib/email.ts:64 | SENT reads "Sent" |
| StatusEmail.ShippingLabel | website/src/lib/email.ts:64 | SHIPPING reads "Shipping" |
| StatusEmail.Greeting | website/src/lib/email.ts:116-121 | the heading, the greeting with the user's name and the status message, with blank lines between |
| StatusEmail.Details | website/src/lib/email.ts:122-125 | the order number after "#", the status label, the restaurant and the location, one per line |
| StatusEmail.TextBody | website/src/lib/email.ts:115-133 | the indented lines of the text template (see TextBodyMentions) |
| StatusEmail.TextBodyMentions | website/src/lib/email.ts:115-133 | the text greets the user and carries the status message, "#" and the order number, the label, the restaurant and the location, each on its own line |
| StatusEmail.GreetingInText | website/src/lib/email.ts:116-121 | each line of the greeting part appears indented, on its own line, in the text |
| StatusEmail.DetailInText | website/src/lib/email.ts:122-125 | each order detail line appears indented, on its own line, in the text |
| StatusEmail.MailFor | website/src/lib/email.ts:70-72 | the mail goes to the customer with the status's subject |
| StatusEmail.Configured | website/src/lib/email.ts:5-13 | both the Gmail user and the app password are set |
| StatusEmail.SendViaGmail | website/src/lib/email.ts:58-152 | throws iff unconfigured, with the fixed message; otherwise the mail is attempted and a send failure is swallowed |
| StatusEmail.SendOrderStatusEmail | website/src/lib/email.ts:43-56 | unconfigured, returns without sending; otherwise sends, catching any error (see SendNeverThrows) |
| StatusEmail.SendNeverThrows | website/src/lib/email.ts:43-56 | the caller never sees an exception; without configuration nothing is sent; otherwise one mail goes to the customer from the configured account |
| SiteHeader.IsActive | website/src/components/SiteHeader.tsx:23-29 | getIsActive: an anchor link stands for '/', which matches only itself; any other link matches a pathname it prefixes (see IsActiveCases) |
| SiteHeader.IsActiveCases | website/src/components/SiteHeader.tsx:23-29 | an anchor link counts as '/'; '/' is active iff the pathname is exactly '/'; any other link iff it is a plain prefix of the pathname |
| SiteHeader.NoSegmentBoundary | website/src/components/SiteHeader.tsx:28 | '/track-package' is active on any pathname that begins with it, '/track-packages' included |
| SiteHeader.NavLinks | website/src/components/SiteHeader.tsx:49 | the authenticated links for a user, the anchor links otherwise |
| SiteHeader.ActiveLinks | website/src/components/SiteHeader.tsx:62-67 | the shown links that are highlighted for the pathname, in display order |
| SiteHeader.AuthenticatedActiveAtMostOne | website/src/components/SiteHeader.tsx:11-29 | signed in, no pathname highlights more than one link |
| SiteHeader.MarketingActive | website/src/components/SiteHeader.tsx:17-29 | signed out, the three anchor links are highlighted together on '/' and nowhere else |
| LidarScan.PointOf | RPLidar/Lidar/LidarOut.py:34 | the (angle, distance) pair of a measurement |
| LidarScan.Points | RPLidar/Lidar/LidarOut.py:34 | one (angle, distance) pair per measurement, in order, with quality dropped |
| LidarScan.IsNewScan | RPLidar/Lidar/LidarOut.py:29 | the measurement starts a rotation |
| LidarScan.Segment | RPLidar/Lidar/LidarOut.py:25-34 | the scans the loop publishes and the scan in progress (see the Segment lemmas) |
| LidarScan.SegmentScansNonEmpty | RPLidar/Lidar/LidarOut.py:29-34 | no published scan is empty, and the scan in progress is empty only before the first measurement |
| LidarScan.SegmentKeepsStream | RPLidar/Lidar/LidarOut.py:25-34 | the published scans followed by the scan in progress are the consumed pairs, in arrival order |
| LidarScan.SegmentCountsRotations | RPLidar/Lidar/Cameratest.py:30-40 | one scan is published per start-of-rotation measurement after the first measurement |
| LidarScan.SegmentScansStartRotations | RPLidar/Lidar/LidarOut.py:29-34 | every scan after the first begins with the measurement that carries new_scan |
| LidarScan.LastPublished | RPLidar/Lidar/LidarOut.py:29-31 | lidar_data after a sequence of publications: the last one, or the initial value |
| LidarScan.Consumed | RPLidar/Lidar/LidarOut.py:25-28 | the measurements the loop takes before it sees lidar_running false |
| LidarScan.LidarFeed.constructor | RPLidar/Lidar/LidarOut.py:6 | lidar_data starts empty |
| LidarScan.LidarFeed.LidarThread | RPLidar/Lidar/LidarOut.py:24-34 | the loop stops at the first measurement seen after lidar_running is false; lidar_data is the last complete scan of what was consumed, never the partial one |
| LidarScan.PublishedScanNeverEmpty | RPLidar/Lidar/Cameratest.py:30-40 | once non-empty, lidar_data is never replaced by an empty scan |
| LidarScan.Mod360 | RPLidar/Lidar/Cameratest.py:123 | the result lies in [0, 360) and differs from the angle by a whole number of turns |
| LidarScan.Mod360FullTurn | RPLidar/Lidar/Cameratest.py:123 | angles a full turn apart normalise alike |
| LidarScan.Mod360InRange | RPLidar/Lidar/Cameratest.py:123 | an angle already in [0, 360) is unchanged |
| CameraOverlay.DangerColour | RPLidar/Lidar/Cameratest.py:90-103 | gray iff 0; red iff non-zero and below 500; yellow iff in [500, 1000); green iff 1000 or more |
| CameraOverlay.DangerBandsOrdered | RPLidar/Lidar/Cameratest.py:94-103 | a nearer positive reading never gets a calmer colour |
| CameraOverlay.Place | RPLidar/Lidar/Cameratest.py:123-151 | the edge is top, right, bottom or left exactly as the normalised angle lies in its sector; progress lies in [0, 1) |
| CameraOverlay.InTop | RPLidar/Lidar/Cameratest.py:125 | the top sector: from 315 degrees on, or below 45 |
| CameraOverlay.InRight | RPLidar/Lidar/Cameratest.py:135 | the right sector: 45 to 135 degrees |
| CameraOverlay.InBottom | RPLidar/Lidar/Cameratest.py:141 | the bottom sector: 135 to 225 degrees |
| CameraOverlay.InLeft | RPLidar/Lidar/Cameratest.py:147 | the left sector: 225 to 315 degrees |
| CameraOverlay.SectorsPartition | RPLidar/Lidar/Cameratest.py:125-147 | every normalised angle lies in exactly one sector |
| CameraOverlay.ProgressIncreases | RPLidar/Lidar/Cameratest.py:127-150 | progress grows with the angle within a sector; on the top edge 315 degrees maps to 0 and 0 degrees to one half |
| CameraOverlay.Offset | RPLidar/Lidar/Cameratest.py:125-150 | the pixel offset along the edge, reversed on the bottom and left edges |
| CameraOverlay.ReversedEdges | RPLidar/Lidar/Cameratest.py:141-151 | on the bottom and left edges a larger angle is drawn nearer the start of the edge; 180 degrees is mid-bottom |
| CameraOverlay.Trunc | RPLidar/Lidar/Cameratest.py:80 | truncation toward zero: for x >= 0 the greatest integer not above x, for x < 0 the least integer not below x; never larger in magnitude than x |
| CameraOverlay.OverlayMark | RPLidar/Lidar/Cameratest.py:62-82 | a rim mark iff the distance is 0, a dot iff non-zero and below 4000, nothing iff 4000 or more |
| CameraOverlay.OverlayDotProperties | RPLidar/Lidar/Cameratest.py:75-82 | a dot lies inside the radar radius, farther for farther readings, and nearer readings are redder, with green and red summing to 255 |
| Pathing.HasReturn | RPLidar/Pathing.py:24 | a reading with a positive distance |
| Pathing.ValidPoints | RPLidar/Pathing.py:24 | the readings with a positive distance (see ValidPointsExact) |
| Pathing.ValidPointsExact | RPLidar/Pathing.py:24 | the valid points are exactly the readings with a positive distance, in order |
| Pathing.NearestIndex | RPLidar/Pathing.py:28 | -1 exactly for no readings, otherwise a position in range |
| Pathing.NearestIsFirstMinimum | RPLidar/Pathing.py:28 | the nearest reading is no farther than any, and strictly nearer than every reading before it |
| Pathing.ReadoutOf | RPLidar/Pathing.py:22-42 | "Waiting for LIDAR" iff there is no data; a reported bearing lies in [0, 360) with a positive distance |
| Pathing.ReadoutReportsNearest | RPLidar/Pathing.py:24-32 | a nearest reading is reported iff some reading has a return; it is a reading of the scan, no farther than any with a return, at its angle mod 360 |

## Left out

- I/O is not modelled: network fetches, Prisma and Supabase calls, nodemailer, the browser router, toasts, console logging, OpenCV drawing and the lidar serial port. Their answers are parameters.
- Concurrency is not modelled: order numbers are generated sequentially (read the maximum, then insert), so nothing is claimed about uniqueness under concurrent creates. The reader thread, `lidar_lock` and the display loop run one at a time.
- The route handlers of the PATCH status update, the restaurant order listing, the user order listing and the lookup by order number are not part of this model. Their paths appear only as the requests the pages send.
- Order totals and prices are not modelled. They are float parsing and summation.
- The HTML part of the status e-mail is not modelled, only its text part.
- DB ordering: the tie order among orders with equal `placedAt` is the database's. The model breaks ties by table position.
- UsersRoute.SortByName: names are compared in code-point order, not by the database's collation.
- CreateOrderRoute.OrderDatabase.Post: request-body values outside the declared types (a fractional quantity such as 0.5, a quantity given as a string such as "2") are not representable, because ItemInput.quantity is an optional integer; in the route such a value passes or fails the filter by JavaScript's comparison rules and then reaches the database call.
- Util.ToLower: only ASCII letters are lower-cased, not the rest of what `toLowerCase` maps. The allow-list verdict is unaffected. Under the Unicode case mappings, the only non-ASCII characters that lower-case to ASCII letters are the Kelvin sign, which becomes 'k', and the dotted capital I, which becomes 'i' plus a combining dot. Neither 'k' nor 'i' occurs in either listed domain.
- OrderLoad.LoadDatabase.RunLoad: faker values, the random restaurant, user and quantity choices, and the pause between batches are nondeterministic choices or omitted.
- DeliveryRequest.DeliveryRequestForm.UpdateQuantity: `Number.isNaN` is not modelled, because quantities are integers.
- DeliveryRequest.IsBlank: only the listed white-space characters count, not every character JavaScript's `trim` strips.
- ResetPassword.ResetPasswordPage.HandleSubmit: the intermediate state with `isSubmitting` raised during the awaited calls is not observable in the model.
- ResetPassword.TokenInUrl: the URL hash is taken to be the same at each read.
- TrackDelivery.ProgressValue: the JavaScript number `activeStepIndex / 3 * 100` is a real, so float rounding is not modelled; the proved range, the 100-iff-delivered fact and the strict increase still hold for the four float values (0, 33.33…, 66.66…, 100).
- The lidar code's floats are real numbers. Float rounding and the float edge of `%` (a tiny negative angle normalising to 360.0) are not modelled, nor is the `int()` of pixel positions; positions along an edge are real.
- One-time lidar setup is not modelled: the exception and `finally` paths of the lidar threads (connect, disconnect) and the camera open.
- Pathing.py assigns its own `lidar_running` at shutdown, not the reader module's. The reader thread is a daemon, and this shutdown path is not modelled.
- The sign-out button of SiteHeader.tsx is not modelled: its only effects are a flag and a toast around the sign-out call.
