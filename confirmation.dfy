/**
  The two confirmation entry points side by side: on the same tables and session they have the
  same effect, and any sequence of polls and webhook deliveries for one session takes the
  reservation's seats at most once.
*/
module Confirmation {
  import opened Common
  import opened Records
  import opened Store
  import VerifyPayment
  import StripeWebhook

  /**
    For a session that passes the polling route's gateway check, a poll and a signed
    `checkout.session.completed` delivery leave the same tables. For a pending payment they also
    agree on the status code: 200 when the transaction commits, 500 when it aborts.
  */
  lemma EntryPointsAgree(t: Tables, id: string, gateway: VerifyPayment.Gateway, signature: string, secret: string, now: Time)
    requires Valid(t) && VerifyPayment.PassesGate(Some(id), gateway) && signature != "" && secret != ""
    ensures
      var v := VerifyPayment.Spec(t, Some(id), gateway, now);
      var w := StripeWebhook.Spec(t, Some(signature), Some(secret), Some(StripeWebhook.CheckoutSessionCompleted(id)), now);
      && v.tables == w.tables
      && (id in t.sessions && t.payments[t.sessions[id]].status != Completed ==> v.reply.status == w.reply.status)
  {
    var sig, sec := Some(signature), Some(secret);
    if id !in t.sessions {
      VerifyPayment.UnknownSessionNotFound(t, Some(id), gateway, now);
      StripeWebhook.NothingToConfirm(t, sig, sec, id, now);
    } else if t.payments[t.sessions[id]].status == Completed {
      VerifyPayment.CompletedPaymentUnchanged(t, Some(id), gateway, now);
      StripeWebhook.NothingToConfirm(t, sig, sec, id, now);
    } else if !HasSeats(t, ReservationOf(t, t.sessions[id])) {
      VerifyPayment.ShortFlightAborts(t, Some(id), gateway, now);
      StripeWebhook.ShortFlightAborts(t, sig, sec, id, now);
    } else {
      VerifyPayment.PendingPaymentConfirmed(t, Some(id), gateway, now);
      StripeWebhook.PendingPaymentConfirmed(t, sig, sec, id, now);
    }
  }

  /** One call about a session: a poll of the success page, or a webhook delivery. */
  datatype Call =
    | Poll(gateway: VerifyPayment.Gateway, now: Time)
    | Delivery(signed: bool, now: Time)

  /** The tables after one call about session `id`. */
  function Step(t: Tables, id: string, c: Call): (t': Tables)
    requires Valid(t)
    ensures Valid(t')
  {
    match c
    case Poll(g, now) => VerifyPayment.Spec(t, Some(id), g, now).tables
    case Delivery(signed, now) =>
      var e := if signed then Some(StripeWebhook.CheckoutSessionCompleted(id)) else None;
      StripeWebhook.Spec(t, Some("t=0,v1=signature"), Some("whsec"), e, now).tables
  }

  /** The tables after the calls, made one after the other. */
  function Run(t: Tables, id: string, calls: seq<Call>): (t': Tables)
    requires Valid(t)
    ensures Valid(t')
    decreases |calls|
  {
    if calls == [] then t else Run(Step(t, id, calls[0]), id, calls[1..])
  }

  /** Every call either changes nothing or commits the confirmation of `id`'s pending payment. */
  lemma StepConfirmsOrKeeps(t: Tables, id: string, c: Call)
    requires Valid(t)
    ensures Step(t, id, c) == t || ConfirmedSession(t, Step(t, id, c), id, c.now)
  {
  }

  /** Once the session's payment is completed, no call changes anything any more. */
  lemma {:induction false} CompletedIsFinal(t: Tables, id: string, calls: seq<Call>)
    requires Valid(t) && id in t.sessions && t.payments[t.sessions[id]].status == Completed
    ensures Run(t, id, calls) == t
    decreases |calls|
  {
    if calls != [] {
      StepConfirmsOrKeeps(t, id, calls[0]);
      CompletedIsFinal(Step(t, id, calls[0]), id, calls[1..]);
    }
  }

  /**
    At most one decrement: after any sequence of polls and deliveries for one session, the
    tables are either unchanged or equal to one committed confirmation of its pending payment.
    So every flight's `availableSlots` is either as before or, for the reserved flight alone,
    lower by exactly the reservation's `passengerCount`.
  */
  lemma {:induction false} AtMostOneConfirmation(t: Tables, id: string, calls: seq<Call>)
    requires Valid(t)
    ensures var t' := Run(t, id, calls);
            t' == t || exists i | 0 <= i < |calls| :: ConfirmedSession(t, t', id, calls[i].now)
    decreases |calls|
  {
    if calls != [] {
      var t1 := Step(t, id, calls[0]);
      StepConfirmsOrKeeps(t, id, calls[0]);
      if t1 == t {
        AtMostOneConfirmation(t, id, calls[1..]);
        if Run(t, id, calls) != t {
          LaterCall(t, Run(t, id, calls), id, calls);
        }
      } else {
        var pid := t.sessions[id];
        ConfirmTxRows(t, pid, calls[0].now);
        CompletedIsFinal(t1, id, calls[1..]);
        assert ConfirmedSession(t, Run(t, id, calls), id, calls[0].now);
      }
    }
  }

  /** A confirmation made by one of the later calls is made by one of the calls. */
  lemma LaterCall(t: Tables, t': Tables, id: string, calls: seq<Call>)
    requires Valid(t) && calls != []
    requires exists i | 0 <= i < |calls[1..]| :: ConfirmedSession(t, t', id, calls[1..][i].now)
    ensures exists i | 0 <= i < |calls| :: ConfirmedSession(t, t', id, calls[i].now)
  {
    var i :| 0 <= i < |calls[1..]| && ConfirmedSession(t, t', id, calls[1..][i].now);
    assert calls[1..][i] == calls[i + 1];
  }

  /** The seat counts after any sequence of calls: at most one decrement, by `passengerCount`. */
  lemma SeatsTakenAtMostOnce(t: Tables, id: string, calls: seq<Call>, rid: Id)
    requires Valid(t) && rid in t.resources
    ensures rid in Run(t, id, calls).resources
    ensures var slots := Run(t, id, calls).resources[rid].availableSlots;
            || slots == t.resources[rid].availableSlots
            || (&& id in t.sessions
                && var res := ReservationOf(t, t.sessions[id]);
                && rid == res.resourceId
                && slots == t.resources[rid].availableSlots - res.passengerCount >= 0)
  {
    AtMostOneConfirmation(t, id, calls);
    var t' := Run(t, id, calls);
    if t' != t {
      var i :| 0 <= i < |calls| && ConfirmedSession(t, t', id, calls[i].now);
      ConfirmedSessionSeats(t, t', id, calls[i].now, rid);
    }
  }

  /** One committed confirmation takes the reserved flight's seats and no other flight's. */
  lemma ConfirmedSessionSeats(t: Tables, t': Tables, id: string, now: Time, rid: Id)
    requires Valid(t) && rid in t.resources && ConfirmedSession(t, t', id, now)
    ensures rid in t'.resources
    ensures var res := ReservationOf(t, t.sessions[id]);
            || t'.resources[rid].availableSlots == t.resources[rid].availableSlots
            || (rid == res.resourceId
                && t'.resources[rid].availableSlots == t.resources[rid].availableSlots - res.passengerCount >= 0)
  {
    var pid := t.sessions[id];
    ConfirmTxFrame(t, pid, now);
    ConfirmTxRows(t, pid, now);
  }
}
