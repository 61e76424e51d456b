/**
  Checkout creation: validates the booking request, checks seats without taking them, records a
  pending reservation, opens a payment session (or makes up a test one) and records the payment.
  Seats are only taken when the payment is later confirmed.
*/
module CreateCheckout {
  import opened Common
  import opened Records
  import opened Store
  import opened Database
  import SyncUser
  import VerifyPayment

  /** The JSON body: `passengers` is the `passengerData.passengers` list, when sent. */
  datatype Request = Request(resourceId: Option<string>, passengerCount: Option<int>, passengers: Option<seq<Passenger>>)

  /** What the payment gateway's session creation gives: a session, or an exception. */
  datatype GatewaySession = Opened(sessionId: string, intentId: string, url: string) | GatewayFailed(message: string)

  /**
    Everything outside the database the route reads: the test-mode switch, the random suffixes
    of test ids, the public base URL, the gateway's answer, the profile fetch of the user sync
    and the clock.
  */
  datatype Env = Env(
    testMode: bool,
    randomSession: string,
    randomIntent: string,
    apiUrl: string,
    gateway: GatewaySession,
    profile: Option<SyncUser.Profile>,
    now: Time)

  /** The primary keys the database would assign to the rows the route creates. */
  datatype FreshIds = FreshIds(user: Id, reservation: Id, payment: Id)

  datatype Created = Created(checkoutUrl: string, reservationId: Id, sessionId: string)

  datatype Outcome = Outcome(reply: Reply<Created>, tables: Tables)

  const Failed: string := "Failed to create checkout session"

  /** The pending reservation the route records; it starts now and ends two hours later. */
  function NewReservation(id: Id, userId: Id, resourceId: Id, count: int, passengers: Option<seq<Passenger>>, now: Time): (r: Reservation)
    ensures r.status == PendingPayment && r.endTime == r.startTime + TwoHoursMs && r.confirmedAt.None?
  {
    Reservation(id, userId, resourceId, count, if passengers.Some? then passengers.value else [],
                PendingPayment, now, now + TwoHoursMs, now, None)
  }

  /** The session id, payment-intent id and checkout URL, from the gateway or made up in test mode. */
  function Session(env: Env): (s: Option<(string, string, string)>)
    ensures env.testMode ==> s.Some? && StartsWith(s.value.0, VerifyPayment.TestPrefix)
    ensures !env.testMode ==> (s.Some? <==> env.gateway.Opened?)
  {
    if env.testMode then
      var sessionId := VerifyPayment.TestPrefix + env.randomSession;
      PrefixStartsWith(VerifyPayment.TestPrefix, env.randomSession);
      Some((sessionId, "test_pi_" + env.randomIntent, env.apiUrl + "/reservations/success?session_id=" + sessionId))
    else if env.gateway.Opened? then
      Some((env.gateway.sessionId, env.gateway.intentId, env.gateway.url))
    else None
  }

  /** The route as a function of the tables, the session's user, the request and its environment. */
  function Spec(t: Tables, authUserId: Option<string>, req: Request, env: Env, ids: FreshIds): (o: Outcome)
    requires Valid(t) && ids.reservation !in t.reservations && ids.payment !in t.payments
    ensures Valid(o.tables)
    ensures o.tables.resources == t.resources
    ensures o.reply.Ok? ==> o.reply.status == 201
    ensures o.reply.Err? && o.reply.status != 500 ==> o.tables == t
  {
    if !TruthyString(authUserId) then Outcome(Err(401, "Unauthorized"), t)
    else if !TruthyString(req.resourceId) || !TruthyInt(req.passengerCount) then
      Outcome(Err(400, "Missing required fields"), t)
    else if req.resourceId.value !in t.resources then Outcome(Err(404, "Resource not found"), t)
    else
      var resource := t.resources[req.resourceId.value];
      var count := req.passengerCount.value;
      if resource.availableSlots < count then Outcome(Err(400, "Not enough available slots"), t)
      else
        var sync := SyncUser.Spec(t, authUserId, env.profile, ids.user);
        if sync.user.Failure? then Outcome(Err(500, Failed), t)
        else
          var t1 := sync.tables;
          var reservation := NewReservation(ids.reservation, sync.user.value.id, resource.id, count, req.passengers, env.now);
          var t2 := AddReservation(t1, reservation);
          var session := Session(env);
          if session.None? then Outcome(Err(500, Failed), t2)
          else
            var (sessionId, intentId, url) := session.value;
            var payment := Payment(ids.payment, reservation.id, intentId, sessionId, resource.priceInCents * count,
                                   resource.currency, if env.testMode then Completed else Pending, None, count, env.testMode);
            var t3 := AddPayment(t2, payment);
            if t3.None? then Outcome(Err(500, Failed), t2)
            else Outcome(Ok(201, Created(url, reservation.id, sessionId)), t3.value)
  }

  /** The route handler, updating the database in place. */
  method Post(db: Db, authUserId: Option<string>, req: Request, env: Env, ids: FreshIds) returns (reply: Reply<Created>)
    requires db.Valid() && ids.reservation !in db.reservations && ids.payment !in db.payments
    modifies db
    ensures Outcome(reply, db.Snapshot()) == Spec(old(db.Snapshot()), authUserId, req, env, ids)
    ensures db.Valid()
  {
    if !TruthyString(authUserId) {
      return Err(401, "Unauthorized");
    }
    if !TruthyString(req.resourceId) || !TruthyInt(req.passengerCount) {
      return Err(400, "Missing required fields");
    }
    var resourceId := req.resourceId.value;
    if resourceId !in db.resources {
      return Err(404, "Resource not found");
    }
    var resource := db.resources[resourceId];
    var count := req.passengerCount.value;
    if resource.availableSlots < count {
      return Err(400, "Not enough available slots");
    }
    var user := SyncUser.Sync(db, authUserId, env.profile, ids.user);
    if user.Failure? {
      return Err(500, Failed);
    }
    var reservation := NewReservation(ids.reservation, user.value.id, resource.id, count, req.passengers, env.now);
    db.InsertReservation(reservation);
    var session := Session(env);
    if session.None? {
      return Err(500, Failed);
    }
    var (sessionId, intentId, url) := session.value;
    var payment := Payment(ids.payment, reservation.id, intentId, sessionId, resource.priceInCents * count,
                           resource.currency, if env.testMode then Completed else Pending, None, count, env.testMode);
    var ok := db.InsertPayment(payment);
    if !ok {
      return Err(500, Failed);
    }
    reply := Ok(201, Created(url, reservation.id, sessionId));
  }

  /** The checks that precede any write: the same request rejected by each with its own status. */
  lemma ValidationOrder(t: Tables, authUserId: Option<string>, req: Request, env: Env, ids: FreshIds)
    requires Valid(t) && ids.reservation !in t.reservations && ids.payment !in t.payments
    ensures !TruthyString(authUserId) ==> Spec(t, authUserId, req, env, ids) == Outcome(Err(401, "Unauthorized"), t)
    ensures TruthyString(authUserId) && req.passengerCount == Some(0) ==>
              Spec(t, authUserId, req, env, ids) == Outcome(Err(400, "Missing required fields"), t)
    ensures TruthyString(authUserId) && TruthyString(req.resourceId) && TruthyInt(req.passengerCount) ==>
              var o := Spec(t, authUserId, req, env, ids);
              var id := req.resourceId.value;
              && (id !in t.resources ==> o == Outcome(Err(404, "Resource not found"), t))
              && (id in t.resources && t.resources[id].availableSlots < req.passengerCount.value ==>
                    o == Outcome(Err(400, "Not enough available slots"), t))
  {
  }

  /**
    A successful checkout inserts exactly one reservation, pending, for `passengerCount`
    passengers, ending two hours after it starts, and one payment for it under the returned
    session id, of `priceInCents * passengerCount` cents, completed in test mode and pending
    otherwise. No flight's seats change.
  */
  lemma CheckoutCreates(t: Tables, authUserId: Option<string>, req: Request, env: Env, ids: FreshIds)
    requires Valid(t) && ids.reservation !in t.reservations && ids.payment !in t.payments
    requires Spec(t, authUserId, req, env, ids).reply.Ok?
    ensures
      var o := Spec(t, authUserId, req, env, ids);
      var created := o.reply.value;
      var flight := t.resources[req.resourceId.value];
      && req.resourceId.Some? && req.passengerCount.Some? && req.resourceId.value in t.resources
      && created.reservationId == ids.reservation
      && o.tables.resources == t.resources
      && o.tables.reservations.Keys == t.reservations.Keys + {ids.reservation}
      && (forall k | k in t.reservations :: o.tables.reservations[k] == t.reservations[k])
      && var r := o.tables.reservations[ids.reservation];
      && r.status == PendingPayment && r.resourceId == req.resourceId.value
      && r.passengerCount == req.passengerCount.value
      && r.startTime == env.now && r.endTime == env.now + TwoHoursMs
      && r.passengers == (if req.passengers.Some? then req.passengers.value else [])
      && o.tables.payments.Keys == t.payments.Keys + {ids.payment}
      && PaymentBySession(o.tables, created.sessionId) == Some(o.tables.payments[ids.payment])
      && var p := o.tables.payments[ids.payment];
      && p.reservationId == ids.reservation
      && p.amountCents == flight.priceInCents * req.passengerCount.value
      && (p.status == Completed <==> env.testMode) && (p.status == Pending <==> !env.testMode)
      && (env.testMode ==> StartsWith(created.sessionId, VerifyPayment.TestPrefix))
  {
  }

  /** The advisory seat check refuses zero but lets a negative `passengerCount` through. */
  lemma NegativeCountAccepted(t: Tables, authUserId: string, resourceId: Id, count: int, env: Env, ids: FreshIds)
    requires Valid(t) && ids.reservation !in t.reservations && ids.payment !in t.payments
    requires authUserId != "" && authUserId in t.users && resourceId != "" && resourceId in t.resources
    requires count < 0 && t.resources[resourceId].availableSlots >= 0 && env.testMode
    requires VerifyPayment.TestPrefix + env.randomSession !in t.sessions
    ensures var o := Spec(t, Some(authUserId), Request(Some(resourceId), Some(count), None), env, ids);
            && o.reply.Ok?
            && o.tables.reservations[ids.reservation].passengerCount == count
            && o.tables.payments[ids.payment].amountCents == t.resources[resourceId].priceInCents * count
  {
  }

  /**
    When opening the payment session fails, the answer is 500 but the reservation inserted
    before it stays, pending and without any payment row.
  */
  lemma GatewayFailureOrphansReservation(t: Tables, authUserId: Option<string>, req: Request, env: Env, ids: FreshIds)
    requires Valid(t) && ids.reservation !in t.reservations && ids.payment !in t.payments
    requires !env.testMode && env.gateway.GatewayFailed?
    requires TruthyString(authUserId) && TruthyString(req.resourceId) && TruthyInt(req.passengerCount)
    requires req.resourceId.value in t.resources
    requires t.resources[req.resourceId.value].availableSlots >= req.passengerCount.value
    requires SyncUser.Spec(t, authUserId, env.profile, ids.user).user.Success?
    ensures var o := Spec(t, authUserId, req, env, ids);
            && o.reply == Err(500, Failed)
            && ids.reservation in o.tables.reservations
            && o.tables.reservations[ids.reservation].status == PendingPayment
            && o.tables.payments == t.payments
            && (forall k | k in o.tables.payments :: o.tables.payments[k].reservationId != ids.reservation)
  {
  }

  /**
    In test mode the payment is recorded as completed, so the success page's poll takes the
    idempotency guard: the reservation stays pending and no seat is ever taken.
  */
  lemma TestModeNeverConfirms(t: Tables, authUserId: Option<string>, req: Request, env: Env, ids: FreshIds,
                              gateway: VerifyPayment.Gateway, later: Time)
    requires Valid(t) && ids.reservation !in t.reservations && ids.payment !in t.payments
    requires env.testMode && Spec(t, authUserId, req, env, ids).reply.Ok?
    ensures var o := Spec(t, authUserId, req, env, ids);
            var v := VerifyPayment.Spec(o.tables, Some(o.reply.value.sessionId), gateway, later);
            && v.tables == o.tables
            && v.tables.reservations[ids.reservation].status == PendingPayment
            && v.tables.resources == t.resources
  {
    CheckoutCreates(t, authUserId, req, env, ids);
    var o := Spec(t, authUserId, req, env, ids);
    var id := o.reply.value.sessionId;
    assert id != "";
    VerifyPayment.CompletedPaymentUnchanged(o.tables, Some(id), gateway, later);
  }
}
