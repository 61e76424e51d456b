/**
  The polling confirmation route: the success page calls it with the checkout-session id. A
  real session must be reported paid by the payment gateway; a test session skips that check.
  The payment found by session id is then confirmed by the shared transaction unless it is
  already completed, and a confirmation email follows a commit.
*/
module VerifyPayment {
  import opened Common
  import opened Records
  import opened Store
  import opened Database

  /** What the gateway's session lookup answers: paid, not paid, or an exception. */
  datatype Gateway = Paid | Unpaid | Unreachable

  /** The JSON body of a successful answer; its `status` field is always `CONFIRMED`. */
  datatype Summary = Summary(reservationId: Id, resourceName: string, passengerCount: int, amountCents: int)

  /** The reply, the tables afterwards, and whether a confirmation email was sent. */
  datatype Outcome = Outcome(reply: Reply<Summary>, tables: Tables, emailed: bool)

  const TestPrefix: string := "test_session_"

  /** The summary of a payment; reading the flight's name fails when the flight is gone. */
  function SummaryOf(t: Tables, p: Payment): (r: Option<Summary>)
    requires Valid(t) && p.reservationId in t.reservations
    ensures r.Some? <==> t.reservations[p.reservationId].resourceId in t.resources
    ensures r.Some? ==> r.value.reservationId == p.reservationId && r.value.amountCents == p.amountCents
  {
    var res := t.reservations[p.reservationId];
    if res.resourceId in t.resources then
      Some(Summary(res.id, t.resources[res.resourceId].name, res.passengerCount, p.amountCents))
    else None
  }

  /** The route as a function of the tables, the query parameter, the gateway's answer and the clock. */
  function Spec(t: Tables, sessionId: Option<string>, gateway: Gateway, now: Time): (o: Outcome)
    requires Valid(t)
    ensures Valid(o.tables)
    ensures o.tables == t || (sessionId.Some? && ConfirmedSession(t, o.tables, sessionId.value, now))
    ensures o.reply.Ok? ==> o.reply.status == 200 && sessionId.Some? && sessionId.value in t.sessions
    ensures o.reply.Err? ==> o.tables == t && o.reply.status in {400, 404, 500}
    ensures o.emailed ==> o.tables != t
  {
    if !TruthyString(sessionId) then Outcome(Err(400, "Session ID required"), t, false)
    else if !StartsWith(sessionId.value, TestPrefix) && gateway == Unreachable then
      Outcome(Err(500, "Failed to verify payment"), t, false)
    else if !StartsWith(sessionId.value, TestPrefix) && gateway == Unpaid then
      Outcome(Err(400, "Payment not completed"), t, false)
    else if sessionId.value !in t.sessions then Outcome(Err(404, "Payment record not found"), t, false)
    else
      var payment := t.payments[t.sessions[sessionId.value]];
      var summary := SummaryOf(t, payment);
      if payment.status == Completed then
        if summary.None? then Outcome(Err(500, "Failed to verify payment"), t, false)
        else Outcome(Ok(200, summary.value), t, false)
      else
        var committed := ConfirmTx(t, payment.id, now);
        if committed.None? then Outcome(Err(500, "Failed to verify payment"), t, false)
        else
          assert summary.Some?;
          var res := t.reservations[payment.reservationId];
          ConfirmTxRows(t, payment.id, now);
          ConfirmTxValid(t, payment.id, now);
          Outcome(Ok(200, summary.value), committed.value, HasUser(t, res.userId))
  }

  /** The route handler, updating the database in place. */
  method Get(db: Db, sessionId: Option<string>, gateway: Gateway, now: Time) returns (reply: Reply<Summary>, emailed: bool)
    requires db.Valid()
    modifies db
    ensures Outcome(reply, db.Snapshot(), emailed) == Spec(old(db.Snapshot()), sessionId, gateway, now)
    ensures db.Valid()
  {
    emailed := false;
    if !TruthyString(sessionId) {
      return Err(400, "Session ID required"), false;
    }
    var id := sessionId.value;
    var isTestMode := StartsWith(id, TestPrefix);
    if !isTestMode {
      if gateway == Unreachable {
        return Err(500, "Failed to verify payment"), false;
      }
      if gateway == Unpaid {
        return Err(400, "Payment not completed"), false;
      }
    }
    if id !in db.sessions {
      return Err(404, "Payment record not found"), false;
    }
    var payment := db.payments[db.sessions[id]];
    var summary := SummaryOf(db.Snapshot(), payment);
    if payment.status == Completed {
      if summary.None? {
        return Err(500, "Failed to verify payment"), false;
      }
      return Ok(200, summary.value), false;
    }
    var userId := db.reservations[payment.reservationId].userId;
    var hasUser := HasUser(db.Snapshot(), userId);
    var ok := db.Confirm(payment.id, now);
    if !ok {
      return Err(500, "Failed to verify payment"), false;
    }
    reply, emailed := Ok(200, summary.value), hasUser;
  }

  /** The session id is present and either names a test session or the gateway reports it paid. */
  predicate PassesGate(sessionId: Option<string>, gateway: Gateway) {
    TruthyString(sessionId) && (StartsWith(sessionId.value, TestPrefix) || gateway == Paid)
  }

  /** A missing or empty `session_id` is refused with 400 before anything is read. */
  lemma MissingSessionRefused(t: Tables, sessionId: Option<string>, gateway: Gateway, now: Time)
    requires Valid(t) && !TruthyString(sessionId)
    ensures Spec(t, sessionId, gateway, now) == Outcome(Err(400, "Session ID required"), t, false)
  {
  }

  /**
    A real session the gateway does not report paid is refused with 400, or 500 when the lookup
    throws, and nothing changes; a test session is never sent to the gateway.
  */
  lemma UnpaidSessionRefused(t: Tables, sessionId: Option<string>, gateway: Gateway, now: Time)
    requires Valid(t) && TruthyString(sessionId) && !PassesGate(sessionId, gateway)
    ensures !StartsWith(sessionId.value, TestPrefix)
    ensures Spec(t, sessionId, gateway, now).tables == t
    ensures gateway == Unpaid ==> Spec(t, sessionId, gateway, now).reply == Err(400, "Payment not completed")
    ensures gateway == Unreachable ==> Spec(t, sessionId, gateway, now).reply == Err(500, "Failed to verify payment")
  {
  }

  /** The answer of a test session does not depend on the gateway. */
  lemma TestSessionSkipsGateway(t: Tables, id: string, g1: Gateway, g2: Gateway, now: Time)
    requires Valid(t) && StartsWith(id, TestPrefix)
    ensures Spec(t, Some(id), g1, now) == Spec(t, Some(id), g2, now)
  {
  }

  /** An unknown session id is answered 404 and nothing changes. */
  lemma UnknownSessionNotFound(t: Tables, sessionId: Option<string>, gateway: Gateway, now: Time)
    requires Valid(t) && PassesGate(sessionId, gateway) && sessionId.value !in t.sessions
    ensures Spec(t, sessionId, gateway, now) == Outcome(Err(404, "Payment record not found"), t, false)
  {
  }

  /**
    The idempotency guard: a completed payment is reported again with its summary, no table
    changes and no email is sent.
  */
  lemma CompletedPaymentUnchanged(t: Tables, sessionId: Option<string>, gateway: Gateway, now: Time)
    requires Valid(t) && PassesGate(sessionId, gateway) && sessionId.value in t.sessions
    requires t.payments[t.sessions[sessionId.value]].status == Completed
    ensures var o := Spec(t, sessionId, gateway, now);
            var p := t.payments[t.sessions[sessionId.value]];
            && o.tables == t && !o.emailed
            && (SummaryOf(t, p).Some? ==> o.reply == Ok(200, SummaryOf(t, p).value))
            && (SummaryOf(t, p).None? ==> o.reply == Err(500, "Failed to verify payment"))
  {
  }

  /** A flight that is gone or short of seats aborts the transaction: 500 and nothing changes. */
  lemma ShortFlightAborts(t: Tables, sessionId: Option<string>, gateway: Gateway, now: Time)
    requires Valid(t) && PassesGate(sessionId, gateway) && sessionId.value in t.sessions
    requires t.payments[t.sessions[sessionId.value]].status != Completed
    requires !HasSeats(t, ReservationOf(t, t.sessions[sessionId.value]))
    ensures Spec(t, sessionId, gateway, now) == Outcome(Err(500, "Failed to verify payment"), t, false)
  {
  }

  /**
    A pending payment whose flight has the seats is confirmed: the flight loses exactly
    `passengerCount` seats and stays non-negative, the reservation is confirmed and the payment
    completed at `now`, no other row changes, and the email goes to the reservation's user.
  */
  lemma PendingPaymentConfirmed(t: Tables, sessionId: Option<string>, gateway: Gateway, now: Time)
    requires Valid(t) && PassesGate(sessionId, gateway) && sessionId.value in t.sessions
    requires t.payments[t.sessions[sessionId.value]].status != Completed
    requires HasSeats(t, ReservationOf(t, t.sessions[sessionId.value]))
    ensures
      var o := Spec(t, sessionId, gateway, now);
      var pid := t.sessions[sessionId.value];
      var res := ReservationOf(t, pid);
      && o.reply.Ok? && o.reply.value == SummaryOf(t, t.payments[pid]).value
      && ConfirmTx(t, pid, now) == Some(o.tables)
      && o.emailed == HasUser(t, res.userId)
      && OnlyRowsChanged(t, o.tables, res.resourceId, res.id, pid)
      && o.tables.resources[res.resourceId].availableSlots
           == t.resources[res.resourceId].availableSlots - res.passengerCount >= 0
      && o.tables.reservations[res.id] == res.(status := Confirmed, confirmedAt := Some(now))
      && o.tables.payments[pid] == t.payments[pid].(status := Completed, paidAt := Some(now))
  {
    var pid := t.sessions[sessionId.value];
    ConfirmTxFrame(t, pid, now);
    ConfirmTxRows(t, pid, now);
  }
}
