/**
  The database as the routes see it: one object whose tables are updated in place. Each
  primitive the routes use (the confirm transaction, the inserts, the user updates) is a method
  whose new state is the matching function of `Store` applied to the old state.
*/
module Database {
  import opened Common
  import opened Records
  import opened Store

  class Db {
    var resources: map<Id, Resource>
    var reservations: map<Id, Reservation>
    var payments: map<Id, Payment>
    var sessions: map<string, Id>
    var users: map<string, User>

    /** The tables as a value. */
    function Snapshot(): Tables
      reads this
    {
      Tables(resources, reservations, payments, sessions, users)
    }

    ghost predicate Valid()
      reads this
    {
      Store.Valid(Snapshot())
    }

    constructor ()
      ensures Snapshot() == Empty && Valid()
    {
      resources, reservations, payments, sessions, users := map[], map[], map[], map[], map[];
      EmptyValid();
    }

    /**
      The confirm transaction: re-read the flight, give up without writing when it is gone or
      short of seats, otherwise decrement its seats, confirm the reservation and complete the
      payment.
    */
    method Confirm(paymentId: Id, now: Time) returns (ok: bool)
      requires Valid() && paymentId in payments
      modifies this
      ensures ok == ConfirmTx(old(Snapshot()), paymentId, now).Some?
      ensures ok ==> Snapshot() == ConfirmTx(old(Snapshot()), paymentId, now).value
      ensures !ok ==> Snapshot() == old(Snapshot())
      ensures Valid()
    {
      var t := Snapshot();
      var payment := t.payments[paymentId];
      var res := t.reservations[payment.reservationId];
      if res.resourceId !in t.resources || t.resources[res.resourceId].availableSlots < res.passengerCount {
        return false;
      }
      var resource := t.resources[res.resourceId];
      resources := t.resources[res.resourceId := resource.(availableSlots := resource.availableSlots - res.passengerCount)];
      reservations := t.reservations[res.id := res.(status := Confirmed, confirmedAt := Some(now))];
      payments := t.payments[paymentId := payment.(status := Completed, paidAt := Some(now))];
      ConfirmTxCommits(t, paymentId, now, Snapshot());
      ok := true;
    }

    method InsertReservation(r: Reservation)
      requires Valid() && r.id !in reservations
      modifies this
      ensures Snapshot() == AddReservation(old(Snapshot()), r) && Valid()
    {
      reservations := reservations[r.id := r];
    }

    /** Fails, writing nothing, when the session id is already taken. */
    method InsertPayment(p: Payment) returns (ok: bool)
      requires Valid() && p.id !in payments && p.reservationId in reservations
      modifies this
      ensures ok == AddPayment(old(Snapshot()), p).Some?
      ensures ok ==> Snapshot() == AddPayment(old(Snapshot()), p).value
      ensures !ok ==> Snapshot() == old(Snapshot())
      ensures Valid()
    {
      if p.sessionId in sessions {
        return false;
      }
      payments := payments[p.id := p];
      sessions := sessions[p.sessionId := p.id];
      ok := true;
    }

    method InsertResource(r: Resource)
      requires Valid() && r.id !in resources
      modifies this
      ensures Snapshot() == AddResource(old(Snapshot()), r) && Valid()
    {
      resources := resources[r.id := r];
    }

    /** Fails, writing nothing, when a user with that `clerkId` exists (unique constraint). */
    method InsertUser(u: User) returns (ok: bool)
      requires Valid()
      modifies this
      ensures ok == AddUser(old(Snapshot()), u).Some?
      ensures ok ==> Snapshot() == AddUser(old(Snapshot()), u).value
      ensures !ok ==> Snapshot() == old(Snapshot())
      ensures Valid()
    {
      if u.clerkId in users {
        return false;
      }
      users := users[u.clerkId := u];
      ok := true;
    }

    /** Fails, writing nothing, when no user has that `clerkId` (record not found). */
    method UpdateUserNames(clerkId: string, firstName: Option<string>, lastName: Option<string>) returns (ok: bool)
      requires Valid()
      modifies this
      ensures ok == RenameUser(old(Snapshot()), clerkId, firstName, lastName).Some?
      ensures ok ==> Snapshot() == RenameUser(old(Snapshot()), clerkId, firstName, lastName).value
      ensures !ok ==> Snapshot() == old(Snapshot())
      ensures Valid()
    {
      if clerkId !in users {
        return false;
      }
      var u := users[clerkId];
      users := users[clerkId := u.(firstName := if firstName.Some? then firstName else u.firstName,
                                   lastName := if lastName.Some? then lastName else u.lastName)];
      ok := true;
    }

    /**
      Fails, writing nothing, when no user has that `clerkId` (record not found) or when a
      reservation still belongs to the user (the relation restricts the delete).
    */
    method DeleteUser(clerkId: string) returns (ok: bool)
      requires Valid()
      modifies this
      ensures ok == RemoveUser(old(Snapshot()), clerkId).Some?
      ensures ok ==> Snapshot() == RemoveUser(old(Snapshot()), clerkId).value
      ensures !ok ==> Snapshot() == old(Snapshot())
      ensures Valid()
    {
      if clerkId !in users || exists r | r in reservations :: reservations[r].userId == users[clerkId].id {
        return false;
      }
      users := users - {clerkId};
      ok := true;
    }
  }
}
