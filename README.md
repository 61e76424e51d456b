# BookYourFlight, modelled in Dafny

BookYourFlight is a flight-booking web application. A signed-in traveller:

1. picks a flight on a paginated, searchable listing;
2. fills in a form with one entry per passenger;
3. is sent to a hosted checkout.

A reservation is confirmed, and its flight's seat counter is decremented, by exactly one database transaction. Two entry points reach it:

- the success page polls a verification route;
- the payment gateway calls a signed webhook.

An identity-provider webhook and a find-or-create helper keep the local user table in step with the identity provider. Roles (`USER`, `ADMIN`) guard the administration routes and pages.

This project models that core and proves properties of the model:

- the seat inventory and the confirm transaction;
- the three payment routes: checkout creation, polling verification and the gateway webhook;
- the flight listing and creation routes;
- the traveller's and the administrator's reservation listings;
- the booking form and the listing page's client-side rules;
- the user sync, the role checks and the middleware;
- the seed script.

## Structure

The database is a value and an object:

- `Store.Tables` is a value: one map per table, plus the unique index of payments by checkout-session id.
- `Database.Db` is a class whose map fields the routes update in place. Each of its primitives is a method whose new state is stated as a `Store` function of the old state.

Each route that writes is written twice:

- a pure `Spec` function (or `Post`, for the flight creation route) from the old tables and the request to an `Outcome` (the reply and the new tables);
- a method over a `Db` whose `ensures` ties its reply and new snapshot to that function.

The properties are lemmas about the pure functions. The client-side components keep their own form:

- the booking form is a class whose handlers are methods;
- the listing page is a class whose fetch handler sorts an array in place.

Calls into code this model cannot see become parameters:

- the payment gateway's answer, and whether the webhook signature verified;
- the identity provider's profile, session and role claims;
- fresh ids, the clock, and the environment's test-mode switch.

## Model

| member | source | states |
|---|---|---|
| Store.EmptyValid | bookyourflight/prisma/seed.ts:214-224 | The empty database satisfies the key, session-index and payment-reservation invariants. |
| Store.PaymentBySession | bookyourflight/app/api/webhooks/stripe/route.ts:25-31 | The payment found under a session id is the one whose `stripeSessionId` it is; none exactly when no payment has that id. |
| Store.ConfirmTx | bookyourflight/app/api/webhooks/stripe/route.ts:49-82 | The confirm transaction commits exactly when the reservation's flight exists and has at least `passengerCount` free seats. |
| Store.ConfirmTxValid | bookyourflight/app/api/webhooks/stripe/route.ts:49-82 | A committed confirmation keeps every table keyed by id, the session index and the payments' foreign keys intact. |
| Store.ConfirmTxCommits | bookyourflight/app/api/webhooks/stripe/route.ts:54-81 | The committed tables are exactly: the flight less `passengerCount` seats, the reservation CONFIRMED and the payment COMPLETED at `now`, everything else as before; they are well formed. |
| Store.ConfirmTxFrame | bookyourflight/app/api/reservations/verify-payment/route.ts:63-96 | A committed confirmation rewrites only the flight, the reservation and the payment; every other row of every table is unchanged. |
| Store.ConfirmTxRows | bookyourflight/app/api/webhooks/stripe/route.ts:54-81 | A committed confirmation decrements the flight's seats by exactly `passengerCount` and leaves them non-negative, changes no other field of the flight, marks the reservation CONFIRMED and the payment COMPLETED at the same instant. |
| Store.ConfirmKeepsBounds | bookyourflight/app/api/webhooks/stripe/route.ts:54-66 | With at least one passenger, a confirmation keeps the counter within `0 <= availableSlots < maxSlots`. |
| Store.AddReservation | bookyourflight/app/api/reservations/create-checkout/route.ts:48-61 | Inserting a reservation under a fresh id adds that row only and keeps the invariants. |
| Store.AddPayment | bookyourflight/app/api/reservations/create-checkout/route.ts:111-124 | Inserting a payment succeeds exactly when its session id is not indexed yet; it adds the row and its index entry only. |
| Store.AddResource | bookyourflight/app/api/resources/route.ts:162-173 | Inserting a flight under a fresh id adds that row only and keeps the invariants. |
| Store.AddUser | bookyourflight/lib/auth/sync-user.ts:28-35 | Inserting a user succeeds exactly when its `clerkId` is unused; it adds that row only. |
| Store.RenameUser | bookyourflight/app/api/webhooks/clerk/route.ts:49-56 | Updating a user succeeds exactly when its `clerkId` exists. It changes only that row's names, and an absent new name keeps the old one. |
| Store.RemoveUser | bookyourflight/app/api/webhooks/clerk/route.ts:67-81 | Deleting a user succeeds exactly when its `clerkId` exists and no reservation belongs to that user (the required relation restricts the delete); it then removes that row only. |
| Database.Db.constructor | bookyourflight/prisma/seed.ts:214-224 | A new database is empty and valid. |
| Database.Db.Confirm | bookyourflight/app/api/webhooks/stripe/route.ts:49-82 | Runs the confirm transaction in place: the new state is the committed tables, or the old state when it aborts. |
| Database.Db.InsertReservation | bookyourflight/app/api/reservations/create-checkout/route.ts:48-61 | The new state is `AddReservation` of the old one. |
| Database.Db.InsertPayment | bookyourflight/app/api/reservations/create-checkout/route.ts:111-124 | The new state is `AddPayment` of the old one, or unchanged when the session id is taken. |
| Database.Db.InsertResource | bookyourflight/app/api/resources/route.ts:162-173 | The new state is `AddResource` of the old one. |
| Database.Db.InsertUser | bookyourflight/lib/auth/sync-user.ts:28-35 | The new state is `AddUser` of the old one, or unchanged when the `clerkId` is taken. |
| Database.Db.UpdateUserNames | bookyourflight/app/api/webhooks/clerk/route.ts:49-56 | The new state is `RenameUser` of the old one, or unchanged when the `clerkId` is unknown. |
| Database.Db.DeleteUser | bookyourflight/app/api/webhooks/clerk/route.ts:67-81 | The new state is `RemoveUser` of the old one, or unchanged when the `clerkId` is unknown or the user still has reservations. |
| VerifyPayment.SummaryOf | bookyourflight/app/api/reservations/verify-payment/route.ts:50-61 | The summary exists exactly when the reservation's flight exists, and it carries the payment's reservation id and amount. |
| VerifyPayment.Spec | bookyourflight/app/api/reservations/verify-payment/route.ts:10-146 | The polling route either leaves the tables as they were or commits one confirm transaction for the polled session. A 200 reply names an existing session. Every error (400, 404, 500) leaves the tables unchanged. The email is sent only after a commit. |
| VerifyPayment.Get | bookyourflight/app/api/reservations/verify-payment/route.ts:10-146 | The handler's reply, email flag and new database state are those of `Spec`. |
| VerifyPayment.MissingSessionRefused | bookyourflight/app/api/reservations/verify-payment/route.ts:11-16 | A missing or empty `session_id` gets 400 "Session ID required" and changes nothing. |
| VerifyPayment.UnpaidSessionRefused | bookyourflight/app/api/reservations/verify-payment/route.ts:18-29 | A non-test session that the gateway reports unpaid gets 400 "Payment not completed"; one the gateway cannot be asked about gets 500. Neither changes anything. |
| VerifyPayment.TestSessionSkipsGateway | bookyourflight/app/api/reservations/verify-payment/route.ts:18-20 | For a `test_session_` session the gateway's answer makes no difference. |
| VerifyPayment.UnknownSessionNotFound | bookyourflight/app/api/reservations/verify-payment/route.ts:31-48 | A session with no payment row gets 404 "Payment record not found" and changes nothing. |
| VerifyPayment.CompletedPaymentUnchanged | bookyourflight/app/api/reservations/verify-payment/route.ts:50-61 | A completed payment is reported again with its summary; no table changes and no email is sent. |
| VerifyPayment.ShortFlightAborts | bookyourflight/app/api/reservations/verify-payment/route.ts:66-71 | When the flight is gone or has fewer free seats than passengers, the reply is 500 and nothing changes. |
| VerifyPayment.PendingPaymentConfirmed | bookyourflight/app/api/reservations/verify-payment/route.ts:63-138 | A pending payment with seats is confirmed: 200 with its summary; the tables are those of the committed transaction; seats down by exactly `passengerCount` and non-negative; reservation CONFIRMED and payment COMPLETED at `now`; no other row changes; an email exactly when the owner exists. |
| StripeWebhook.Spec | bookyourflight/app/api/webhooks/stripe/route.ts:8-103 | The webhook either leaves the tables as they were or commits one confirm transaction for a verified `checkout.session.completed`. A success reply is 200 `{received: true}`. Errors (400, 500) change nothing. A missing signature or secret is always a 400. |
| StripeWebhook.Post | bookyourflight/app/api/webhooks/stripe/route.ts:8-103 | The handler's reply and new database state are those of `Spec`. |
| StripeWebhook.BadSignatureRefused | bookyourflight/app/api/webhooks/stripe/route.ts:17-22 | An event whose signature does not verify gets 400 "Invalid signature" and changes nothing. |
| StripeWebhook.OtherEventsIgnored | bookyourflight/app/api/webhooks/stripe/route.ts:88-98 | Refunds and every other event type are acknowledged with 200 and change nothing. |
| StripeWebhook.NothingToConfirm | bookyourflight/app/api/webhooks/stripe/route.ts:25-47 | A completed session with no payment row, or whose payment is already COMPLETED, is acknowledged with 200 and changes nothing. |
| StripeWebhook.ShortFlightAborts | bookyourflight/app/api/webhooks/stripe/route.ts:54-56 | When the seat check fails inside the transaction, the reply is 500 and nothing changes. |
| StripeWebhook.PendingPaymentConfirmed | bookyourflight/app/api/webhooks/stripe/route.ts:49-82 | A completed event for a pending payment whose flight has the seats commits the confirm transaction and is acknowledged with 200. |
| Confirmation.EntryPointsAgree | bookyourflight/app/api/webhooks/stripe/route.ts:49-82 | For a session that passes the polling route's gateway check, a poll and a signed completion event leave the same tables. For a pending payment they also give the same status. |
| Confirmation.Step | bookyourflight/app/api/reservations/verify-payment/route.ts:63-96 | One poll or one delivery keeps the database invariants. |
| Confirmation.Run | bookyourflight/app/api/webhooks/stripe/route.ts:49-82 | Any sequence of polls and deliveries keeps the database invariants. |
| Confirmation.StepConfirmsOrKeeps | bookyourflight/app/api/webhooks/stripe/route.ts:25-82 | A single call either changes nothing or is one committed confirmation of the session's pending payment. |
| Confirmation.CompletedIsFinal | bookyourflight/app/api/reservations/verify-payment/route.ts:50-61 | Once the session's payment is COMPLETED, no further sequence of calls changes anything. |
| Confirmation.AtMostOneConfirmation | bookyourflight/app/api/webhooks/stripe/route.ts:25-82 | After any interleaving of polls and deliveries for one session, the tables are unchanged or equal to exactly one committed confirmation. |
| Confirmation.SeatsTakenAtMostOnce | bookyourflight/app/api/webhooks/stripe/route.ts:54-66 | After any interleaving, every flight's seat count is unchanged, except that the reserved flight may be lower by exactly `passengerCount`, and then non-negative. |
| Confirmation.ConfirmedSessionSeats | bookyourflight/app/api/webhooks/stripe/route.ts:54-66 | One committed confirmation leaves every flight's seats as they were, except the reserved flight's, which drop by exactly `passengerCount` and stay non-negative. |
| CreateCheckout.NewReservation | bookyourflight/app/api/reservations/create-checkout/route.ts:48-61 | The new reservation is PENDING_PAYMENT, unconfirmed, and ends two hours after it starts. |
| CreateCheckout.Session | bookyourflight/app/api/reservations/create-checkout/route.ts:63-109 | In test mode a `test_session_` session is always made up. Otherwise there is a session exactly when the gateway opened one. |
| CreateCheckout.Spec | bookyourflight/app/api/reservations/create-checkout/route.ts:9-151 | The checkout route keeps the invariants and never changes a flight's seats. A success is 201. Every error except 500 leaves the tables unchanged. |
| CreateCheckout.Post | bookyourflight/app/api/reservations/create-checkout/route.ts:9-151 | The handler's reply and new database state are those of `Spec`. |
| CreateCheckout.ValidationOrder | bookyourflight/app/api/reservations/create-checkout/route.ts:10-42 | Before any write the checks fire in order, each with its own status and none changing a table: 401 without a user; 400 for a zero count or missing field; 404 for an unknown flight; 400 when seats are short. |
| CreateCheckout.CheckoutCreates | bookyourflight/app/api/reservations/create-checkout/route.ts:46-133 | A success inserts one pending reservation and one payment of `priceInCents * passengerCount` under the returned session id; the payment is COMPLETED in test mode and PENDING otherwise; no flight's seats change. |
| CreateCheckout.NegativeCountAccepted | bookyourflight/app/api/reservations/create-checkout/route.ts:19-42 | A negative `passengerCount` passes every check and is stored with a negative amount. |
| CreateCheckout.GatewayFailureOrphansReservation | bookyourflight/app/api/reservations/create-checkout/route.ts:48-109 | When the gateway fails after the reservation was written, the reply is 500 but the pending reservation stays, with no payment pointing at it. |
| CreateCheckout.TestModeNeverConfirms | bookyourflight/app/api/reservations/create-checkout/route.ts:118 | A test-mode checkout's payment is already COMPLETED, so the success page's poll changes nothing: the reservation stays pending and no seat is taken. |
| Roles.GetUserRole | bookyourflight/lib/auth/roles.ts:4-16 | The role is read from the identity provider's metadata for the explicit id, else the session's. It is `USER` when there is no id or the metadata holds no role, and `ADMIN` exactly when that id's metadata says `ADMIN`. |
| Roles.HasRole | bookyourflight/lib/auth/roles.ts:18-26 | Asking for `ADMIN` holds exactly when the user's role is `ADMIN`; asking for anything else always holds. |
| Roles.RequireAuth | bookyourflight/lib/auth/roles.ts:28-36 | Succeeds with the session's user id exactly when it is present and non-empty; otherwise fails with "Unauthorized". |
| Roles.RequireAdmin | bookyourflight/lib/auth/roles.ts:38-47 | Succeeds exactly when signed in with the `ADMIN` role. It fails with "Unauthorized" when signed out and with "Forbidden" otherwise. |
| Middleware.MatchesAny | bookyourflight/middleware.ts:4-17 | A route matcher accepts a path exactly when one of its patterns matches it. |
| Middleware.Decide | bookyourflight/middleware.ts:19-38 | Public routes always pass. A non-public route redirects to sign-in exactly when signed out. It redirects to the 403 page exactly when signed in on an admin route without the `ADMIN` claim. |
| Middleware.WebhooksArePublic | bookyourflight/middleware.ts:13-14 | Both webhooks pass without a signed-in user. |
| Middleware.DiffersAt | bookyourflight/middleware.ts:4-15 | A path that differs from a pattern's text at some position matches it neither exactly nor as a prefix. |
| Middleware.ReservationsApiNotPublic | bookyourflight/middleware.ts:4-15 | No public pattern matches a path under `/api/reservations/`. |
| Middleware.PaymentRoutesNeedSignIn | bookyourflight/middleware.ts:22-28 | The polling and checkout routes send a signed-out caller to sign-in. |
| Middleware.AdminAreaNeedsAdmin | bookyourflight/middleware.ts:30-35 | A signed-in caller without the `ADMIN` claim is sent to the 403 page from anywhere under `/admin`. |
| SyncUser.PrimaryEmail | bookyourflight/lib/auth/sync-user.ts:31 | The first address, or the empty string when there is none. |
| SyncUser.Spec | bookyourflight/lib/auth/sync-user.ts:6-39 | Without a user id the sync fails. An existing row is returned unchanged. Otherwise one row with the profile's details is created under the session's `clerkId`, or the sync fails and nothing changes. |
| SyncUser.Sync | bookyourflight/lib/auth/sync-user.ts:6-39 | The method's result and new database state are those of `Spec`. |
| SyncUser.SyncIdempotent | bookyourflight/lib/auth/sync-user.ts:11-13 | A second sync after a successful one returns the same user and changes nothing, whatever the profile or fresh id. |
| SyncUser.SyncAddsAtMostOne | bookyourflight/lib/auth/sync-user.ts:28-35 | A sync adds at most one user row, only under the session's `clerkId`, and changes no other table. |
| ClerkWebhook.FirstEmail | bookyourflight/app/api/webhooks/clerk/route.ts:30-31 | The first address when there is one. |
| ClerkWebhook.Spec | bookyourflight/app/api/webhooks/clerk/route.ts:7-84 | Only the user table can change. The reply is 200 exactly when the secret is set, the event verified, and a create or update event carries an email. Errors change nothing. |
| ClerkWebhook.Post | bookyourflight/app/api/webhooks/clerk/route.ts:7-84 | The handler's reply and new database state are those of `Spec`. |
| ClerkWebhook.CreatedInsertsOnce | bookyourflight/app/api/webhooks/clerk/route.ts:40-64 | `user.created` inserts the user under its `clerkId` when absent, and leaves an existing row alone (the unique-key failure is swallowed). |
| ClerkWebhook.UpdatedRenamesOnly | bookyourflight/app/api/webhooks/clerk/route.ts:49-64 | `user.updated` changes only the names of that `clerkId`'s row, keeping a name the event leaves empty. Email, role and id never change, and no other row changes. |
| ClerkWebhook.DeletedRemoves | bookyourflight/app/api/webhooks/clerk/route.ts:67-81 | `user.deleted` always answers 200. It removes that `clerkId`'s row, and nothing else, when the row exists and no reservation belongs to it. Otherwise the failed delete is swallowed and the tables are unchanged. |
| ClerkWebhook.CreateThenDelete | bookyourflight/app/api/webhooks/clerk/route.ts:40-81 | Creating, then deleting, a user that did not exist gives back the original tables: the new row's fresh id has no reservations. |
| ResourcesRoute.Filter | bookyourflight/app/api/resources/route.ts:56-63 | The flights kept are exactly those whose name or description contains the search, ignoring case. Each kept flight is kept as often as it is stored, and the kept flights stay in storage order. |
| ResourcesRoute.EmptySearchKeepsAll | bookyourflight/app/api/resources/route.ts:56 | An empty search keeps every flight, in order. |
| ResourcesRoute.WindowNewestFirst | bookyourflight/app/api/resources/route.ts:67-75 | A page cut from a newest-first list is newest first. |
| ResourcesRoute.WindowMembers | bookyourflight/app/api/resources/route.ts:67-75 | Every flight on a page of a reordering of a list is in that list. |
| ResourcesRoute.Get | bookyourflight/app/api/resources/route.ts:47-96 | The page and limit default to 1 and 10. The page holds at most `limit` flights, newest first, each one stored and matching the search. `total` counts all matches, and `pages` is the least number of pages holding them. |
| ResourcesRoute.GetWindow | bookyourflight/app/api/resources/route.ts:54-75 | The page is the `Window` (at most `limit` flights, those from position `(page - 1) * limit` onwards) of the matching flights sorted newest first. |
| ResourcesRoute.NewRow | bookyourflight/app/api/resources/route.ts:162-173 | A new flight starts with every seat free and stores the given metadata, or an empty object. |
| ResourcesRoute.Post | bookyourflight/app/api/resources/route.ts:140-186 | Creation succeeds exactly for an admin with every required field, answering 201 with the stored row. 401, 403, 400 or 500 otherwise; every error leaves the tables unchanged. |
| ResourcesRoute.PostHandler | bookyourflight/app/api/resources/route.ts:140-186 | The handler's reply and new database state are those of `Post`. |
| ResourcesRoute.PostGate | bookyourflight/app/api/resources/route.ts:142-154 | Composed with `requireAdmin`, a signed-out caller gets 401 and a non-admin 403, and neither changes anything. |
| Records.Field | bookyourflight/app/api/reservations/route.ts:41-43 | `metadata?.key`: present exactly when the key is, and then the value stored under it. |
| ReservationsRoute.TotalPrice | bookyourflight/app/api/reservations/route.ts:38-40 | Without a payment, the total is price times passengers. With one, it is the paid amount cut to whole euros by `parseInt`, unchanged when already whole. |
| ReservationsRoute.FractionDropped | bookyourflight/app/api/reservations/route.ts:38-40 | A payment of 12950 cents is listed as 12900: the cents are dropped. |
| ReservationsRoute.Format | bookyourflight/app/api/reservations/route.ts:31-44 | An item carries its reservation's id, flight id, status, confirmation time and passenger count, the flight's name, `TotalPrice` of its row, and the flight metadata's `departureTime`, `origin` and `destination` (each absent when its key is). |
| ReservationsRoute.Mine | bookyourflight/app/api/reservations/route.ts:10-29 | The rows kept are exactly the caller's, each as often as it is stored, newest first. Same-instant rows are ordered as listed under "Left out". |
| ReservationsRoute.MembersOfPermutation | bookyourflight/app/api/reservations/route.ts:10-29 | Two orderings of the same rows have the same members. |
| ReservationsRoute.Get | bookyourflight/app/api/reservations/route.ts:6-54 | A failed sync gives 500. Otherwise 200, with the caller's reservations formatted newest first. |
| ReservationsRoute.GetOnlyMine | bookyourflight/app/api/reservations/route.ts:10-44 | Every item listed is a formatted reservation of the caller, and every reservation of the caller is listed. |
| AdminReservations.TrimKeeps | bookyourflight/app/api/admin/reservations/route.ts:55 | Trimming a string without edge whitespace keeps it. |
| AdminReservations.UserName | bookyourflight/app/api/admin/reservations/route.ts:55 | The shown name is `trim(first + " " + last)` (a missing name taken as empty) when that join has a non-blank character, and "N/A" when it is all white space, in particular when both names are missing or empty. It is never empty and has no edge white space. |
| AdminReservations.FullName | bookyourflight/app/api/admin/reservations/route.ts:55 | With both names trimmed and non-empty, the shown name is "first last". |
| AdminReservations.FirstNameOnly | bookyourflight/app/api/admin/reservations/route.ts:55 | With only a trimmed first name, the shown name is that name. |
| AdminReservations.LastNameOnly | bookyourflight/app/api/admin/reservations/route.ts:55 | With only a trimmed last name, the shown name is that name: the leading space is trimmed away. |
| AdminReservations.Format | bookyourflight/app/api/admin/reservations/route.ts:51-75 | An item has a payment part exactly when the row has a payment, with the same amount. It carries the reservation's id, status, creation and confirmation times, user id and email, flight id and name, passenger count and passengers, the computed user name, and the flight metadata's `origin`, `destination` and `departureTime` as `flightDetails`. |
| AdminReservations.FormatAll | bookyourflight/app/api/admin/reservations/route.ts:51-75 | Each row is formatted, in order. |
| AdminReservations.FormatAllKeeps | bookyourflight/app/api/admin/reservations/route.ts:51-75 | Formatting keeps newest-first order and the status filter. |
| AdminReservations.ParseStatus | bookyourflight/app/api/admin/reservations/route.ts:15 | Each status name is recognised exactly as itself. |
| AdminReservations.Matching | bookyourflight/app/api/admin/reservations/route.ts:15-49 | The rows kept are exactly those with the requested status, or all rows without a filter. Each kept row is kept as often as it is stored, and the kept rows stay in storage order. |
| AdminReservations.PageItems | bookyourflight/app/api/admin/reservations/route.ts:17-75 | A page holds `min(limit, max(0, matches - skip))` items; item `i` is the formatted `skip + i`-th match in newest-first order. It holds at most `limit` items, newest first, each with the requested status. |
| AdminReservations.Get | bookyourflight/app/api/admin/reservations/route.ts:5-94 | 200 exactly for an admin with no status or a known one; 500 otherwise. The page is `PageItems` of the matching rows at offset `(page - 1) * limit` (limit 20 by default): at most `limit` items, newest first and filtered. `total` counts every match. |
| AdminReservations.PageFacts | bookyourflight/app/api/admin/reservations/route.ts:17-75 | The formatted page holds at most `take` items and exactly `min(take, max(0, matches - skip))`. Item `i` is the formatted `skip + i`-th match in newest-first order. The page is newest first and filtered. |
| AdminReservations.GetWindow | bookyourflight/app/api/admin/reservations/route.ts:13-22 | On success the listed reservations are the formatted `Window` (at most `limit` rows, those from position `(page - 1) * limit` onwards) of the matching rows sorted newest first. |
| AdminReservations.NoFilterCountsAll | bookyourflight/app/api/admin/reservations/route.ts:15-86 | Without a status, or with an empty one, `total` is the number of all reservations. |
| BookingForm.SetField | bookyourflight/components/ReservationForm.tsx:56-60 | Typing sets the chosen input of an entry; the other two keep their text. |
| BookingForm.ClampCount | bookyourflight/components/ReservationForm.tsx:41 | The kept count is at least 1, at most the free seats when there is one, and the request itself when in range. |
| BookingForm.Resize | bookyourflight/components/ReservationForm.tsx:44-53 | One entry per passenger: typed entries are kept, missing ones are added blank at the end, surplus ones are dropped from the end. |
| BookingForm.GrowThenShrink | bookyourflight/components/ReservationForm.tsx:44-53 | Raising the count and lowering it back restores the entries exactly. |
| BookingForm.ShrinkThenGrowForgets | bookyourflight/components/ReservationForm.tsx:44-53 | Lowering the count forgets the dropped entries; raising it again gives blank ones. |
| BookingForm.AsRequest | bookyourflight/components/ReservationForm.tsx:62-69 | The submitted payload becomes a checkout request with every field present. |
| BookingForm.ReservationForm.constructor | bookyourflight/components/ReservationForm.tsx:33-36 | The form opens with one passenger and one blank entry, and is valid. |
| BookingForm.ReservationForm.TotalPriceCents | bookyourflight/components/ReservationForm.tsx:38 | The displayed total is the price times the passenger count, and at least one price for a non-negative price. |
| BookingForm.ReservationForm.ChangePassengerCount | bookyourflight/components/ReservationForm.tsx:40-54 | The count becomes the clamped request, the entries are resized to it, and the form stays valid (one entry per passenger, within the free seats). |
| BookingForm.ReservationForm.ChangePassenger | bookyourflight/components/ReservationForm.tsx:56-60 | Only the chosen entry's chosen input changes, and the count stays; an index with no entry changes nothing. |
| BookingForm.ReservationForm.Submit | bookyourflight/components/ReservationForm.tsx:62-69 | The payload is the flight's id with the current count and entries, at least one and one entry per passenger. |
| BookingForm.ShownTotalIsCharged | bookyourflight/components/ReservationForm.tsx:38 | When the form, opened with the flight's current price, is submitted and the checkout succeeds, the payment's recorded amount equals the form's `TotalPriceCents`. |
| ResourcesPage.UrlSearch | bookyourflight/app/resources/page.tsx:35-47 | The initial search is the non-empty URL parameters, origin first, joined by one space; none when both are absent or empty. |
| ResourcesPage.QueryFor | bookyourflight/app/resources/page.tsx:76-80 | A request asks for the current page with a limit of 12, and includes the search exactly when it is non-empty. |
| ResourcesPage.SortKey | bookyourflight/app/resources/page.tsx:91-98 | Exactly the three modes "price-low", "price-high" and "available" re-sort. |
| ResourcesPage.ArrangedOrders | bookyourflight/app/resources/page.tsx:91-98 | Re-sorting shows the same flights, by ascending price, descending price or descending free seats; any other mode keeps the server's order. |
| ResourcesPage.ArrangedKeepsTies | bookyourflight/app/resources/page.tsx:91-98 | Flights that tie under the mode's key keep the server's order. |
| ResourcesPage.Pages | bookyourflight/app/resources/page.tsx:111 | The page count is the least number of 12-card pages holding `total` flights. |
| ResourcesPage.PrevTarget | bookyourflight/app/resources/page.tsx:178-179 | "Previous" goes one page back, never below 1; it is disabled exactly when it would stay put. |
| ResourcesPage.NextTarget | bookyourflight/app/resources/page.tsx:201-202 | "Next" goes one page forward, never past the last; it is disabled exactly when it would stay put. |
| ResourcesPage.PageButtons | bookyourflight/app/resources/page.tsx:184-187 | As written: up to five consecutive numbers, starting two below the current page but at least 1. |
| ResourcesPage.ButtonsPastLastPage | bookyourflight/app/resources/page.tsx:184-187 | On page 5 of 5 the buttons read 3, 4, 5, 6, 7. |
| ResourcesPage.PagerButtons | bookyourflight/app/resources/page.tsx:184-187 | Corrected buttons: five consecutive numbers (fewer with fewer pages), all existing pages, including the current one. They are the buttons as written whenever the last of those, `max(1, page - 2) + min(5, pages) - 1`, is at most `pages`. |
| ResourcesPage.Page.constructor | bookyourflight/app/resources/page.tsx:22-28 | The page opens with no flights, a total of 0, page 1 and newest-first order. |
| ResourcesPage.Page.FetchResources | bookyourflight/app/resources/page.tsx:73-109 | On success, shows the returned flights in the mode's order (sorted in place) with the returned total, 0 when absent. On failure, shows no flights and a total of 0. |
| ResourcesPage.ShownPageMatchesApi | bookyourflight/app/resources/page.tsx:73-111 | A page served by the listing route shows at most 12 flights, all stored and matching the search, and the page count agrees with the route's. |
| Seed.Flights | bookyourflight/prisma/seed.ts:38-210 | The ten seeded flights, in order. |
| Seed.FlightIdInjective | bookyourflight/prisma/seed.ts:216 | Two flights get the same id exactly when they have the same flight number. |
| Seed.RowOf | bookyourflight/prisma/seed.ts:218-221 | A seeded row has the id `flight_<number>` and the flight's name, free seats and capacity. |
| Seed.UpsertUser | bookyourflight/prisma/seed.ts:11-35 | An upsert adds the user when its `clerkId` is new and leaves an existing row untouched (empty update). |
| Seed.UpsertFlight | bookyourflight/prisma/seed.ts:215-222 | An upsert adds the flight when its id is new and leaves an existing row untouched (empty update). |
| Seed.UpsertIsInsert | bookyourflight/prisma/seed.ts:214-224 | On a new key an upsert is the plain insert, and it keeps the invariants. |
| Seed.Accounts | bookyourflight/prisma/seed.ts:8-35 | The admin and plain test users exist afterwards; existing rows are kept. |
| Seed.SeedFlightsValid | bookyourflight/prisma/seed.ts:214-224 | The flight loop keeps the invariants. |
| Seed.SeedAllValid | bookyourflight/prisma/seed.ts:7-225 | The whole seed keeps the invariants. |
| Seed.FlightKeys | bookyourflight/prisma/seed.ts:216 | The ids of a flight list are exactly `flight_<number>` of its entries. |
| Seed.SeedFlightsFrame | bookyourflight/prisma/seed.ts:214-224 | The flight loop keeps every existing flight row and every other table. |
| Seed.SeedFlightsKeys | bookyourflight/prisma/seed.ts:214-224 | After the loop, the flight ids are the old ones plus one per distinct flight number. |
| Seed.SeedFlightsFirst | bookyourflight/prisma/seed.ts:214-224 | A new id's row comes from the first flight with that number. |
| Seed.SeedFlightsPresent | bookyourflight/prisma/seed.ts:217 | When every id already exists, the loop changes nothing. |
| Seed.SeedFlightsTwice | bookyourflight/prisma/seed.ts:214-224 | Running the loop twice is running it once, whatever the second run's clock. |
| Seed.SeedIdempotent | bookyourflight/prisma/seed.ts:7-225 | Seeding twice is seeding once, whatever the second run's ids and clock. |
| Seed.NumbersDistinct | bookyourflight/prisma/seed.ts:38-210 | The only two seeded flights sharing a number are the first (London) and the ninth (Berlin), both AF1234. |
| Seed.FirstUnderKey | bookyourflight/prisma/seed.ts:38-210 | Every seeded flight but Berlin is the first with its id. |
| Seed.BerlinSharesLondonKey | bookyourflight/prisma/seed.ts:40-49 | Berlin's id is London's id. |
| Seed.SeedFromEmptyKeys | bookyourflight/prisma/seed.ts:214-224 | Seeding an empty database stores exactly the seeded ids. |
| Seed.DistinctKeysCount | bookyourflight/prisma/seed.ts:216 | Flights with pairwise different numbers have as many ids as entries. |
| Seed.DropRepeatedKey | bookyourflight/prisma/seed.ts:216 | Leaving out an entry whose id an earlier entry already has keeps the set of ids. |
| Seed.WithoutBerlinKeys | bookyourflight/prisma/seed.ts:38-210 | The ten flights without Berlin have the same ids as all ten. |
| Seed.SeedStoresNine | bookyourflight/prisma/seed.ts:214-224 | Seeding an empty database stores exactly nine flights, not ten. |
| Seed.SeedFromEmpty | bookyourflight/prisma/seed.ts:214-224 | On an empty database, the row under each flight's id is that flight's row, except that Berlin's id holds London's row. |
| Seed.BerlinNeverStored | bookyourflight/prisma/seed.ts:177-185 | Seeding an empty database never stores a flight named "Vol Paris-Berlin AF1234". |
| Seed.StoredFlight | bookyourflight/prisma/seed.ts:214-224 | Every row seeding an empty database stores is the row of a listed flight other than the Berlin one. |
| Seed.NameNotBerlin | bookyourflight/prisma/seed.ts:38-210 | Only the ninth seeded flight is named "Vol Paris-Berlin AF1234". |
| Seed.SeedAccounts | bookyourflight/prisma/seed.ts:11-35 | Seeding an empty database creates the ADMIN and USER accounts under their test `clerkId`s. |
| Seed.SeedSlotsWithinCapacity | bookyourflight/prisma/seed.ts:38-210 | Every seeded flight has `0 <= availableSlots <= maxSlots`. |
| Seed.UpsertFlights | bookyourflight/prisma/seed.ts:214-224 | The loop updates the database in place to the pure loop's result and keeps it valid. |
| Seed.SeedDatabase | bookyourflight/prisma/seed.ts:7-225 | The script updates the database in place to the pure seed's result and keeps it valid. |
| Common.OrUndefined | bookyourflight/app/api/webhooks/clerk/route.ts:45-46 | `x \|\| undefined`: the value exactly when it is present and non-empty. |
| Common.ToLower | bookyourflight/app/api/resources/route.ts:56-63 | Lower-casing keeps the length and maps each character. |
| Common.LeadingBlanks | bookyourflight/app/api/admin/reservations/route.ts:55 | The length of the white-space run a string starts with: every character before it is white space, the next one is not. |
| Common.TrailingBlanks | bookyourflight/app/api/admin/reservations/route.ts:55 | The length of the white-space run a string ends with: every character after it is white space, the one before it is not. |
| Common.Trim | bookyourflight/app/api/admin/reservations/route.ts:55 | `String.prototype.trim`: the result is the part of the input that starts right after its leading white space; everything after the result is white space, and the result has no white space at either end. It is empty exactly when the input is all white space. |
| Common.CeilDiv | bookyourflight/app/api/resources/route.ts:79-88 | `Math.ceil(total / limit)`: the least page count holding `total` items. |
| Common.WholeEuros | bookyourflight/app/api/reservations/route.ts:39 | `parseInt` of an amount: its whole euros, truncated toward zero. |
| Common.PageOffset | bookyourflight/app/api/resources/route.ts:54 | `skip = (page - 1) * limit`. |
| Common.Window | bookyourflight/app/api/resources/route.ts:67-75 | `skip`/`take`: at most `take` items, those at `skip` onwards. |
| Sorting.InsertionSortPermutes | bookyourflight/app/resources/page.tsx:91-98 | Sorting keeps the same multiset of elements. |
| Sorting.InsertionSortSorted | bookyourflight/app/resources/page.tsx:91-98 | Sorting orders elements by ascending key. |
| Sorting.InsertionSortStable | bookyourflight/app/resources/page.tsx:91-98 | Sorting keeps the relative order of elements with equal keys. |
| Sorting.SortInPlace | bookyourflight/app/resources/page.tsx:91-98 | Sorting an array in place leaves it equal to the functional sort of its old contents. |

## Left out

- Concurrency. Each route is one atomic step over the tables. Interleavings are modelled only between whole poll and webhook calls (`Confirmation`), not inside them.
- I/O and external services become parameters:
  - the payment gateway (session creation, retrieval, signature verification);
  - the identity provider (`auth()`, `currentUser()`, Svix verification);
  - the email sender (only whether it is called is modelled, as `emailed`);
  - logging.
- Real session ids, URLs and fresh ids are parameters, not generated.
- Clocks: one `now` stands for every `new Date()` read during one request.
- Floating point: prices stay integer cents. The page's `price / 100` display division and the `toFixed`/Decimal formatting are not modelled.
- The admin reservation detail route (`app/api/admin/reservations/[id]`) is not part of this model.
- `setUserRole` (`lib/auth/roles.ts:49-54`) is not part of this model: no route in the core calls it.
- The middleware's `config.matcher` (`middleware.ts:40-45`) is not part of this model: it decides which requests reach the middleware, a framework concern.
- The resources page's debounce timer and `isInitializingRef` bookkeeping (`page.tsx:50-64`) are not part of this model. Only the resulting search text and request are.
- The page's fetch: a thrown request and a non-OK status are collapsed into one `FetchFailed` outcome, since both lead to the same state.
- ResourcesRoute.Get: the `page` and `limit` query values are taken as parsed, positive integers. `parseInt` returning `NaN` or values below 1 are not modelled.
- AdminReservations.Get: same as ResourcesRoute.Get for `page` and `limit`. An unknown `status` string is modelled as the 500 the database's enum validation produces. The reservation statuses are taken to be PENDING_PAYMENT, CONFIRMED and CANCELLED, the ones the routes write or compare against. PAYMENT_FAILED and EXPIRED, which the API documentation (`lib/swagger.ts:183-189`) also lists, are not modelled; a filter on them is treated as unknown. The database schema (`prisma/schema.prisma`), which fixes the enum, is not part of this model.
- ReservationsRoute.Get: the sync-user call is taken as an input (its result); its effect on the user table is proved in `SyncUser`, not repeated here. The same holds for CreateCheckout.Spec.
- ResourcesRoute.Get and ReservationsRoute.Mine: `orderBy: { createdAt: 'desc' }` leaves rows created at the same instant in no fixed order. The model's stable sort keeps them in storage order, which is one order the query allows, not the only one.
- The listing routes work over the joined rows (reservation with flight, payment and user) in storage order. The joins themselves are not modelled.
- Common.ToLower: lower-casing covers ASCII letters only. Unicode case folding is not modelled.
- Common.Trim: `IsSpace` is the WhiteSpace and LineTerminator set of sections 12.2 and 12.3 of ECMA-262 (tab, vertical tab, form feed, U+FEFF, line feed, carriage return, U+2028, U+2029), with the space separators (Zs) fixed as of Unicode 15: U+0020, U+00A0, U+1680, U+2000 to U+200A, U+202F, U+205F and U+3000. A later Unicode version that adds a space separator is not followed.
- Store.RemoveUser: the database schema (`prisma/schema.prisma`) is not part of this model. The required `Reservation.user` relation is taken with Prisma's default referential action, `Restrict`: deleting a user who still has reservations fails and writes nothing. A schema declaring `onDelete: Cascade` would instead delete those reservations (and their payments); that variant is not modelled. ClerkWebhook.DeletedRemoves inherits this choice.
- The role stored on a user row created by the sync or the identity-provider webhook is the schema's default `USER`, taken as given.
- Users are keyed by `clerkId` only; the uniqueness of `email` is not enforced.
- Store.ConfirmKeepsBounds: requires `passengerCount >= 1`. The routes do not guarantee this (see `CreateCheckout.NegativeCountAccepted`). A negative count raises the counter, possibly above `maxSlots`.
- BookingForm.ReservationForm.ChangePassenger: the source mutates the shared passenger object in place (a shallow copy). The model replaces the entry by value, so aliasing between old and new arrays is not captured. An out-of-range index throws in the source; the model keeps the state, as the throw happens before any state is stored.

## Findings

| source | as written | input that shows it | evidently intended | confidence | as-written member | corrected member |
|---|---|---|---|---|---|---|
| bookyourflight/app/resources/page.tsx:184-187 | The numbered buttons start at `max(1, page - 2)` and always number `min(5, pages)`, so near the last page they name pages that do not exist. | `page = 5`, `pages = 5` gives buttons 3, 4, 5, 6, 7. | A window of `min(5, pages)` consecutive existing pages that contains the current page. | not executed; high | ResourcesPage.ButtonsPastLastPage | ResourcesPage.PagerButtons |
