/**
  The database as a value: the Resource, Reservation, Payment and User tables, each a map keyed
  by its primary key, plus the unique index of payments by checkout-session id. The one
  transaction that confirms a paid reservation is defined here, once, for both entry points
  (client polling and the payment-gateway webhook).
*/
module Store {
  import opened Common
  import opened Records

  datatype Tables = Tables(
    resources: map<Id, Resource>,
    reservations: map<Id, Reservation>,
    payments: map<Id, Payment>,
    sessions: map<string, Id>,
    users: map<string, User>)

  const Empty: Tables := Tables(map[], map[], map[], map[], map[])

  /** Every row is stored under its own primary key (users under their unique `clerkId`). */
  predicate KeyedById(t: Tables) {
    && (forall k | k in t.resources :: t.resources[k].id == k)
    && (forall k | k in t.reservations :: t.reservations[k].id == k)
    && (forall k | k in t.payments :: t.payments[k].id == k)
    && (forall c | c in t.users :: t.users[c].clerkId == c)
  }

  /** The session index and the payments table describe each other: session ids are unique. */
  predicate SessionIndexed(t: Tables) {
    && (forall s | s in t.sessions :: t.sessions[s] in t.payments && t.payments[t.sessions[s]].sessionId == s)
    && (forall k | k in t.payments :: t.payments[k].sessionId in t.sessions && t.sessions[t.payments[k].sessionId] == k)
  }

  /** The foreign key of a payment: its reservation exists. */
  predicate PaymentsHaveReservations(t: Tables) {
    forall k | k in t.payments :: t.payments[k].reservationId in t.reservations
  }

  predicate Valid(t: Tables) {
    KeyedById(t) && SessionIndexed(t) && PaymentsHaveReservations(t)
  }

  lemma EmptyValid()
    ensures Valid(Empty)
  {
  }

  /** `payment.findUnique({ where: { stripeCheckoutSessionId } })`. */
  function PaymentBySession(t: Tables, sessionId: string): (r: Option<Payment>)
    requires Valid(t)
    ensures r.Some? <==> sessionId in t.sessions
    ensures r.Some? ==> r.value.id in t.payments && t.payments[r.value.id] == r.value
    ensures r.Some? ==> r.value.sessionId == sessionId && r.value.reservationId in t.reservations
  {
    if sessionId in t.sessions then Some(t.payments[t.sessions[sessionId]]) else None
  }

  /** The reservation a payment belongs to. */
  function ReservationOf(t: Tables, paymentId: Id): Reservation
    requires Valid(t) && paymentId in t.payments
  {
    t.reservations[t.payments[paymentId].reservationId]
  }

  /** The capacity check inside the confirm transaction: the flight exists and has the seats. */
  predicate HasSeats(t: Tables, r: Reservation) {
    r.resourceId in t.resources && t.resources[r.resourceId].availableSlots >= r.passengerCount
  }

  /**
    Rows other than the flight `rid`, the reservation `resId` and the payment `pid` are the same
    in both states, no row was added or removed, and the session index and users are untouched.
  */
  predicate OnlyRowsChanged(t: Tables, t': Tables, rid: Id, resId: Id, pid: Id) {
    && t'.resources.Keys == t.resources.Keys
    && t'.reservations.Keys == t.reservations.Keys
    && t'.payments.Keys == t.payments.Keys
    && (forall k | k in t.resources && k != rid :: t'.resources[k] == t.resources[k])
    && (forall k | k in t.reservations && k != resId :: t'.reservations[k] == t.reservations[k])
    && (forall k | k in t.payments && k != pid :: t'.payments[k] == t.payments[k])
    && t'.sessions == t.sessions
    && t'.users == t.users
  }

  /**
    The confirm transaction shared by the polling route and the webhook: re-read the flight,
    abort (`None`, the transaction throws and rolls back) when it is missing or short of seats,
    otherwise take `passengerCount` seats, confirm the reservation and complete the payment.
  */
  function ConfirmTx(t: Tables, paymentId: Id, now: Time): (r: Option<Tables>)
    requires Valid(t) && paymentId in t.payments
    ensures r.Some? <==> HasSeats(t, ReservationOf(t, paymentId))
  {
    var payment := t.payments[paymentId];
    var res := t.reservations[payment.reservationId];
    if !HasSeats(t, res) then None
    else
      var resource := t.resources[res.resourceId];
      var t' := t.(
        resources := t.resources[res.resourceId := resource.(availableSlots := resource.availableSlots - res.passengerCount)],
        reservations := t.reservations[res.id := res.(status := Confirmed, confirmedAt := Some(now))],
        payments := t.payments[paymentId := payment.(status := Completed, paidAt := Some(now))]);
      Some(t')
  }

  /** A committed confirmation keeps the tables well formed. */
  lemma ConfirmTxValid(t: Tables, paymentId: Id, now: Time)
    requires Valid(t) && paymentId in t.payments
    requires ConfirmTx(t, paymentId, now).Some?
    ensures Valid(ConfirmTx(t, paymentId, now).value)
  {
    var payment := t.payments[paymentId];
    var res := t.reservations[payment.reservationId];
    RewriteRowsValid(t, ConfirmTx(t, paymentId, now).value, res.resourceId, res.id, paymentId);
  }

  /**
    The tables a committed confirmation produces, row by row: the flight loses the booked seats,
    the reservation is confirmed and the payment completed at `now`, and nothing else changes.
  */
  lemma ConfirmTxCommits(t: Tables, paymentId: Id, now: Time, t': Tables)
    requires Valid(t) && paymentId in t.payments && HasSeats(t, ReservationOf(t, paymentId))
    requires var payment := t.payments[paymentId];
             var res := t.reservations[payment.reservationId];
             var resource := t.resources[res.resourceId];
             && t'.resources == t.resources[res.resourceId := resource.(availableSlots := resource.availableSlots - res.passengerCount)]
             && t'.reservations == t.reservations[res.id := res.(status := Confirmed, confirmedAt := Some(now))]
             && t'.payments == t.payments[paymentId := payment.(status := Completed, paidAt := Some(now))]
             && t'.sessions == t.sessions && t'.users == t.users
    ensures ConfirmTx(t, paymentId, now) == Some(t') && Valid(t')
  {
    ConfirmTxValid(t, paymentId, now);
  }

  /**
    Rewriting existing rows in place, without touching their keys, session ids or the
    reservation a payment points to, keeps the tables well formed.
  */
  lemma RewriteRowsValid(t: Tables, t': Tables, rid: Id, resId: Id, pid: Id)
    requires Valid(t) && OnlyRowsChanged(t, t', rid, resId, pid)
    requires rid in t.resources ==> t'.resources[rid].id == rid
    requires resId in t.reservations ==> t'.reservations[resId].id == resId
    requires pid in t.payments ==> t'.payments[pid].(status := Pending, paidAt := None)
                                   == t.payments[pid].(status := Pending, paidAt := None)
    ensures Valid(t')
  {
    assert KeyedById(t');
    forall k | k in t'.payments
      ensures t'.payments[k].sessionId == t.payments[k].sessionId
      ensures t'.payments[k].reservationId == t.payments[k].reservationId
    {
      if k == pid {
        assert t'.payments[pid].(status := Pending, paidAt := None).sessionId == t'.payments[pid].sessionId;
      }
    }
  }

  /** A committed confirmation rewrites three rows in place and nothing else. */
  lemma ConfirmTxFrame(t: Tables, paymentId: Id, now: Time)
    requires Valid(t) && paymentId in t.payments
    requires ConfirmTx(t, paymentId, now).Some?
    ensures var res := ReservationOf(t, paymentId);
            OnlyRowsChanged(t, ConfirmTx(t, paymentId, now).value, res.resourceId, res.id, paymentId)
  {
    var payment := t.payments[paymentId];
    var res := t.reservations[payment.reservationId];
    var resource := t.resources[res.resourceId];
    var t' := ConfirmTx(t, paymentId, now).value;
    RewriteFrame(t, res.resourceId, resource.(availableSlots := resource.availableSlots - res.passengerCount),
                 res.id, res.(status := Confirmed, confirmedAt := Some(now)),
                 paymentId, payment.(status := Completed, paidAt := Some(now)));
  }

  lemma RewriteFrame(t: Tables, rid: Id, f: Resource, resId: Id, r: Reservation, pid: Id, p: Payment)
    requires rid in t.resources && resId in t.reservations && pid in t.payments
    ensures OnlyRowsChanged(t, t.(resources := t.resources[rid := f], reservations := t.reservations[resId := r],
                                  payments := t.payments[pid := p]), rid, resId, pid)
  {
  }

  /**
    What a committed confirmation writes: exactly `passengerCount` seats leave the flight, which
    cannot go below zero, and no other field of the flight changes; the reservation is confirmed
    and the payment completed, both at `now`.
  */
  lemma ConfirmTxRows(t: Tables, paymentId: Id, now: Time)
    requires Valid(t) && paymentId in t.payments
    requires ConfirmTx(t, paymentId, now).Some?
    ensures
      var res := ReservationOf(t, paymentId);
      var t' := ConfirmTx(t, paymentId, now).value;
      && res.resourceId in t.resources && res.resourceId in t'.resources
      && t'.resources[res.resourceId].availableSlots
           == t.resources[res.resourceId].availableSlots - res.passengerCount
      && t'.resources[res.resourceId].availableSlots >= 0
      && t'.resources[res.resourceId].(availableSlots := 0) == t.resources[res.resourceId].(availableSlots := 0)
      && t'.reservations[res.id] == res.(status := Confirmed, confirmedAt := Some(now))
      && t'.payments[paymentId] == t.payments[paymentId].(status := Completed, paidAt := Some(now))
  {
  }

  /**
    With at least one passenger, a confirmation keeps a flight's counter within
    `0 <= availableSlots <= maxSlots`.
  */
  lemma ConfirmKeepsBounds(t: Tables, paymentId: Id, now: Time)
    requires Valid(t) && paymentId in t.payments
    requires ReservationOf(t, paymentId).passengerCount >= 1
    requires ConfirmTx(t, paymentId, now).Some?
    requires var f := t.resources[ReservationOf(t, paymentId).resourceId]; f.availableSlots <= f.maxSlots
    ensures var rid := ReservationOf(t, paymentId).resourceId;
            var f' := ConfirmTx(t, paymentId, now).value.resources[rid];
            0 <= f'.availableSlots < f'.maxSlots
  {
  }

  /** Inserting a new row under a fresh key. */
  function AddReservation(t: Tables, r: Reservation): (t': Tables)
    requires Valid(t) && r.id !in t.reservations
    ensures Valid(t')
    ensures t'.reservations.Keys == t.reservations.Keys + {r.id} && t'.reservations[r.id] == r
    ensures forall k | k in t.reservations :: t'.reservations[k] == t.reservations[k]
    ensures t'.(reservations := t.reservations) == t
  {
    t.(reservations := t.reservations[r.id := r])
  }

  /**
    Inserting a payment; `None` when its session id is already taken (the unique constraint on
    `stripeCheckoutSessionId` makes the insert throw).
  */
  function AddPayment(t: Tables, p: Payment): (r: Option<Tables>)
    requires Valid(t) && p.id !in t.payments && p.reservationId in t.reservations
    ensures r.None? <==> p.sessionId in t.sessions
    ensures r.Some? ==> Valid(r.value) && PaymentBySession(r.value, p.sessionId) == Some(p)
    ensures r.Some? ==> r.value.payments.Keys == t.payments.Keys + {p.id}
    ensures r.Some? ==> r.value.(payments := t.payments, sessions := t.sessions) == t
  {
    if p.sessionId in t.sessions then None
    else
      var t' := t.(payments := t.payments[p.id := p], sessions := t.sessions[p.sessionId := p.id]);
      AddPaymentValid(t, p, t');
      Some(t')
  }

  lemma AddPaymentValid(t: Tables, p: Payment, t': Tables)
    requires Valid(t) && p.id !in t.payments && p.reservationId in t.reservations && p.sessionId !in t.sessions
    requires t' == t.(payments := t.payments[p.id := p], sessions := t.sessions[p.sessionId := p.id])
    ensures Valid(t')
  {
    AddPaymentIndexed(t, p, t');
  }

  lemma AddPaymentIndexed(t: Tables, p: Payment, t': Tables)
    requires Valid(t) && p.id !in t.payments && p.sessionId !in t.sessions
    requires t' == t.(payments := t.payments[p.id := p], sessions := t.sessions[p.sessionId := p.id])
    ensures SessionIndexed(t')
  {
    forall s | s in t'.sessions
      ensures t'.sessions[s] in t'.payments && t'.payments[t'.sessions[s]].sessionId == s
    {
      if s != p.sessionId {
        assert t.sessions[s] != p.id;
      }
    }
  }

  function AddResource(t: Tables, r: Resource): (t': Tables)
    requires Valid(t) && r.id !in t.resources
    ensures Valid(t')
    ensures t'.resources.Keys == t.resources.Keys + {r.id} && t'.resources[r.id] == r
    ensures t'.(resources := t.resources) == t
  {
    t.(resources := t.resources[r.id := r])
  }

  /** Inserting a user; `None` when its `clerkId` is already taken (unique constraint). */
  function AddUser(t: Tables, u: User): (r: Option<Tables>)
    requires Valid(t)
    ensures r.None? <==> u.clerkId in t.users
    ensures r.Some? ==> Valid(r.value) && r.value.users == t.users[u.clerkId := u]
    ensures r.Some? ==> r.value.(users := t.users) == t
  {
    if u.clerkId in t.users then None else Some(t.(users := t.users[u.clerkId := u]))
  }

  /**
    Overwriting a user's names; an absent new name leaves that field as it was. `None` when no
    user has that `clerkId` (the update finds no record).
  */
  function RenameUser(t: Tables, clerkId: string, firstName: Option<string>, lastName: Option<string>): (r: Option<Tables>)
    requires Valid(t)
    ensures r.None? <==> clerkId !in t.users
    ensures r.Some? ==> Valid(r.value) && r.value.users.Keys == t.users.Keys
    ensures r.Some? ==> forall c | c in t.users && c != clerkId :: r.value.users[c] == t.users[c]
    ensures r.Some? ==>
      var old_, new_ := t.users[clerkId], r.value.users[clerkId];
      && new_.(firstName := old_.firstName, lastName := old_.lastName) == old_
      && new_.firstName == (if firstName.Some? then firstName else old_.firstName)
      && new_.lastName == (if lastName.Some? then lastName else old_.lastName)
    ensures r.Some? ==> r.value.(users := t.users) == t
  {
    if clerkId !in t.users then None
    else
      var u := t.users[clerkId];
      Some(t.(users := t.users[clerkId := u.(firstName := if firstName.Some? then firstName else u.firstName,
                                             lastName := if lastName.Some? then lastName else u.lastName)]))
  }

  /** Some reservation belongs to the user whose primary key is `userId`. */
  predicate Referenced(t: Tables, userId: Id) {
    exists r | r in t.reservations :: t.reservations[r].userId == userId
  }

  /**
    Deleting a user by `clerkId`. `None` when there is none (record not found) or when a
    reservation still belongs to that user: the required `Reservation.user` relation restricts
    the delete, which then fails and writes nothing.
  */
  function RemoveUser(t: Tables, clerkId: string): (r: Option<Tables>)
    requires Valid(t)
    ensures r.None? <==> clerkId !in t.users || Referenced(t, t.users[clerkId].id)
    ensures r.Some? ==> Valid(r.value) && r.value.users.Keys == t.users.Keys - {clerkId}
    ensures r.Some? ==> forall c | c in r.value.users :: r.value.users[c] == t.users[c]
    ensures r.Some? ==> r.value.(users := t.users) == t
  {
    if clerkId !in t.users || Referenced(t, t.users[clerkId].id) then None
    else Some(t.(users := t.users - {clerkId}))
  }

  /**
    `t'` is `t` after the confirm transaction committed for the payment of `sessionId`, a payment
    that was not completed yet.
  */
  predicate ConfirmedSession(t: Tables, t': Tables, sessionId: string, now: Time)
    requires Valid(t)
  {
    && sessionId in t.sessions
    && t.payments[t.sessions[sessionId]].status != Completed
    && ConfirmTx(t, t.sessions[sessionId], now) == Some(t')
  }

  /** A user row whose primary key is `userId` exists. */
  predicate HasUser(t: Tables, userId: Id) {
    exists c | c in t.users :: t.users[c].id == userId
  }
}
