/**
  The payment gateway's webhook. A signed `checkout.session.completed` event runs the same
  guarded confirm transaction as the polling route; every other verified event is acknowledged
  without effect.
*/
module StripeWebhook {
  import opened Common
  import opened Records
  import opened Store
  import opened Database

  /** A verified event, by its `type`. */
  datatype Event =
    | CheckoutSessionCompleted(sessionId: string)
    | ChargeRefunded(chargeId: string)
    | Unhandled(kind: string)

  /**
    The route's answer: `Ok(200, true)` is `{ received: true }`. The tables afterwards come
    with it.
  */
  datatype Outcome = Outcome(reply: Reply<bool>, tables: Tables)

  /**
    The route as a function. `signature` is the `stripe-signature` header, `secret` the
    configured signing secret, and `verified` what signature verification produced: `None` when
    it throws.
  */
  function Spec(t: Tables, signature: Option<string>, secret: Option<string>, verified: Option<Event>, now: Time): (o: Outcome)
    requires Valid(t)
    ensures Valid(o.tables)
    ensures o.tables == t || (verified.Some? && verified.value.CheckoutSessionCompleted?
                              && ConfirmedSession(t, o.tables, verified.value.sessionId, now))
    ensures o.reply.Ok? ==> o.reply == Ok(200, true)
    ensures o.reply.Err? ==> o.tables == t && o.reply.status in {400, 500}
    ensures !TruthyString(signature) || !TruthyString(secret) ==> o.reply.Err? && o.reply.status == 400
  {
    if !TruthyString(signature) || !TruthyString(secret) then
      Outcome(Err(400, "Missing signature or secret"), t)
    else if verified.None? then Outcome(Err(400, "Invalid signature"), t)
    else match verified.value
      case CheckoutSessionCompleted(sessionId) =>
        if sessionId !in t.sessions then Outcome(Ok(200, true), t)
        else
          var payment := t.payments[t.sessions[sessionId]];
          if payment.status == Completed then Outcome(Ok(200, true), t)
          else
            var committed := ConfirmTx(t, payment.id, now);
            if committed.None? then Outcome(Err(500, "Webhook processing failed"), t)
            else
              ConfirmTxValid(t, payment.id, now);
              Outcome(Ok(200, true), committed.value)
      case ChargeRefunded(_) => Outcome(Ok(200, true), t)
      case Unhandled(_) => Outcome(Ok(200, true), t)
  }

  /** The route handler, updating the database in place. */
  method Post(db: Db, signature: Option<string>, secret: Option<string>, verified: Option<Event>, now: Time)
    returns (reply: Reply<bool>)
    requires db.Valid()
    modifies db
    ensures Outcome(reply, db.Snapshot()) == Spec(old(db.Snapshot()), signature, secret, verified, now)
    ensures db.Valid()
  {
    if !TruthyString(signature) || !TruthyString(secret) {
      return Err(400, "Missing signature or secret");
    }
    if verified.None? {
      return Err(400, "Invalid signature");
    }
    match verified.value {
      case CheckoutSessionCompleted(sessionId) =>
        if sessionId in db.sessions {
          var payment := db.payments[db.sessions[sessionId]];
          if payment.status != Completed {
            var ok := db.Confirm(payment.id, now);
            if !ok {
              return Err(500, "Webhook processing failed");
            }
          }
        }
      case ChargeRefunded(_) =>
      case Unhandled(_) =>
    }
    reply := Ok(200, true);
  }

  /** A failed signature check is answered 400 `Invalid signature` and nothing changes. */
  lemma BadSignatureRefused(t: Tables, signature: Option<string>, secret: Option<string>, now: Time)
    requires Valid(t) && TruthyString(signature) && TruthyString(secret)
    ensures Spec(t, signature, secret, None, now) == Outcome(Err(400, "Invalid signature"), t)
  {
  }

  /** Refunds and unrecognised event types are acknowledged and change nothing. */
  lemma OtherEventsIgnored(t: Tables, signature: Option<string>, secret: Option<string>, e: Event, now: Time)
    requires Valid(t) && TruthyString(signature) && TruthyString(secret) && !e.CheckoutSessionCompleted?
    ensures Spec(t, signature, secret, Some(e), now) == Outcome(Ok(200, true), t)
  {
  }

  /** An unknown session or an already completed payment is acknowledged with no change. */
  lemma NothingToConfirm(t: Tables, signature: Option<string>, secret: Option<string>, sessionId: string, now: Time)
    requires Valid(t) && TruthyString(signature) && TruthyString(secret)
    requires sessionId !in t.sessions || t.payments[t.sessions[sessionId]].status == Completed
    ensures Spec(t, signature, secret, Some(CheckoutSessionCompleted(sessionId)), now) == Outcome(Ok(200, true), t)
  {
  }

  /** A pending payment whose flight has the seats is confirmed, once, and acknowledged with 200. */
  lemma PendingPaymentConfirmed(t: Tables, signature: Option<string>, secret: Option<string>, sessionId: string, now: Time)
    requires Valid(t) && TruthyString(signature) && TruthyString(secret)
    requires sessionId in t.sessions && t.payments[t.sessions[sessionId]].status != Completed
    requires HasSeats(t, ReservationOf(t, t.sessions[sessionId]))
    ensures var o := Spec(t, signature, secret, Some(CheckoutSessionCompleted(sessionId)), now);
            && o.reply == Ok(200, true)
            && ConfirmTx(t, t.sessions[sessionId], now) == Some(o.tables)
            && ConfirmedSession(t, o.tables, sessionId, now)
  {
  }

  /** A flight that is gone or short of seats aborts the transaction: 500 and nothing changes. */
  lemma ShortFlightAborts(t: Tables, signature: Option<string>, secret: Option<string>, sessionId: string, now: Time)
    requires Valid(t) && TruthyString(signature) && TruthyString(secret)
    requires sessionId in t.sessions && t.payments[t.sessions[sessionId]].status != Completed
    requires !HasSeats(t, ReservationOf(t, t.sessions[sessionId]))
    ensures Spec(t, signature, secret, Some(CheckoutSessionCompleted(sessionId)), now)
            == Outcome(Err(500, "Webhook processing failed"), t)
  {
  }
}
