/**
  The identity provider's webhook: mirrors user creation, update and deletion into the user
  table, keyed by `clerkId`. Database errors inside each branch are logged and swallowed, so a
  verified event always ends in 200.
*/
module ClerkWebhook {
  import opened Common
  import opened Records
  import opened Store
  import opened Database
  import SyncUser

  /** A verified event, by its `type`, with the fields the route reads from its `data`. */
  datatype Event =
    | UserCreated(id: string, emails: seq<string>, firstName: Option<string>, lastName: Option<string>)
    | UserUpdated(id: string, emails: seq<string>, firstName: Option<string>, lastName: Option<string>)
    | UserDeleted(id: string)
    | OtherEvent(kind: string)

  datatype Outcome = Outcome(reply: Reply<bool>, tables: Tables)

  /** `email_addresses[0]?.email_address`, absent when the list is empty. */
  function FirstEmail(emails: seq<string>): (e: Option<string>)
    ensures e.Some? <==> emails != []
    ensures e.Some? ==> e.value == emails[0]
  {
    if emails == [] then None else Some(emails[0])
  }

  /** The row a `user.created` event inserts. */
  function CreatedUser(e: Event, freshId: Id): User
    requires e.UserCreated? && e.emails != []
  {
    User(freshId, e.id, FirstEmail(e.emails).value, OrUndefined(e.firstName), OrUndefined(e.lastName), SyncUser.DefaultRole)
  }

  /**
    The route as a function. `secret` is the configured signing secret (`''` when unset),
    `verified` what signature verification produced (`None` when it throws), and `freshId` the
    primary key the database would assign to a new row. `Ok(200, true)` is `{ success: true }`.
  */
  function Spec(t: Tables, secret: string, verified: Option<Event>, freshId: Id): (o: Outcome)
    requires Valid(t)
    ensures Valid(o.tables)
    ensures o.reply.Err? ==> o.tables == t
    ensures o.reply.Ok? <==>
              && secret != "" && verified.Some?
              && (verified.value.UserCreated? || verified.value.UserUpdated? ==> TruthyString(FirstEmail(verified.value.emails)))
    ensures o.reply.Ok? ==> o.reply == Ok(200, true)
    ensures o.tables.(users := t.users) == t
  {
    if secret == "" then Outcome(Err(500, "Webhook secret not configured"), t)
    else if verified.None? then Outcome(Err(400, "Webhook verification failed"), t)
    else
      var e := verified.value;
      match e
      case UserCreated(id, emails, first, last) =>
        if !TruthyString(FirstEmail(emails)) then Outcome(Err(400, "No email found"), t)
        else
          var inserted := AddUser(t, CreatedUser(e, freshId));
          Outcome(Ok(200, true), if inserted.Some? then inserted.value else t)
      case UserUpdated(id, emails, first, last) =>
        if !TruthyString(FirstEmail(emails)) then Outcome(Err(400, "No email found"), t)
        else
          var renamed := RenameUser(t, id, OrUndefined(first), OrUndefined(last));
          Outcome(Ok(200, true), if renamed.Some? then renamed.value else t)
      case UserDeleted(id) =>
        var removed := RemoveUser(t, id);
        Outcome(Ok(200, true), if removed.Some? then removed.value else t)
      case OtherEvent(_) => Outcome(Ok(200, true), t)
  }

  /** The route handler, updating the database in place. */
  method Post(db: Db, secret: string, verified: Option<Event>, freshId: Id) returns (reply: Reply<bool>)
    requires db.Valid()
    modifies db
    ensures Outcome(reply, db.Snapshot()) == Spec(old(db.Snapshot()), secret, verified, freshId)
    ensures db.Valid()
  {
    if secret == "" {
      return Err(500, "Webhook secret not configured");
    }
    if verified.None? {
      return Err(400, "Webhook verification failed");
    }
    var e := verified.value;
    if e.UserCreated? || e.UserUpdated? {
      var email := FirstEmail(e.emails);
      if !TruthyString(email) {
        return Err(400, "No email found");
      }
      if e.UserCreated? {
        var _ := db.InsertUser(CreatedUser(e, freshId));
      } else {
        var _ := db.UpdateUserNames(e.id, OrUndefined(e.firstName), OrUndefined(e.lastName));
      }
    }
    if e.UserDeleted? {
      var _ := db.DeleteUser(e.id);
    }
    reply := Ok(200, true);
  }

  /**
    `user.created` inserts one row under its `clerkId`, with the first address as email; when
    that `clerkId` is taken the table is left as it was.
  */
  lemma CreatedInsertsOnce(t: Tables, secret: string, e: Event, freshId: Id)
    requires Valid(t) && secret != "" && e.UserCreated? && TruthyString(FirstEmail(e.emails))
    ensures var t' := Spec(t, secret, Some(e), freshId).tables;
            && (e.id in t.users ==> t' == t)
            && (e.id !in t.users ==> t'.users == t.users[e.id := CreatedUser(e, freshId)]
                                     && t'.users[e.id].email == e.emails[0])
  {
  }

  /**
    `user.updated` touches only the names of the row with that `clerkId`, keeping a name the
    event leaves empty; email, role and id never change. An unknown `clerkId` changes nothing.
  */
  lemma UpdatedRenamesOnly(t: Tables, secret: string, e: Event, freshId: Id)
    requires Valid(t) && secret != "" && e.UserUpdated? && TruthyString(FirstEmail(e.emails))
    ensures var t' := Spec(t, secret, Some(e), freshId).tables;
            && t'.users.Keys == t.users.Keys
            && (forall c | c in t.users && c != e.id :: t'.users[c] == t.users[c])
            && (e.id in t.users ==>
                  var u, u' := t.users[e.id], t'.users[e.id];
                  && u'.id == u.id && u'.email == u.email && u'.role == u.role && u'.clerkId == u.clerkId
                  && u'.firstName == (if TruthyString(e.firstName) then e.firstName else u.firstName)
                  && u'.lastName == (if TruthyString(e.lastName) then e.lastName else u.lastName))
  {
  }

  /**
    `user.deleted` removes the row with that `clerkId` and nothing else, when there is one and
    none of its reservations remain. Otherwise the delete fails, the error is swallowed and the
    tables stay as they were.
  */
  lemma DeletedRemoves(t: Tables, secret: string, id: string, freshId: Id)
    requires Valid(t) && secret != ""
    ensures var o := Spec(t, secret, Some(UserDeleted(id)), freshId);
            && o.reply == Ok(200, true)
            && (id in t.users && !Referenced(t, t.users[id].id) ==>
                  && o.tables.users.Keys == t.users.Keys - {id}
                  && (forall c | c in o.tables.users :: o.tables.users[c] == t.users[c])
                  && o.tables.(users := t.users) == t)
            && (id !in t.users || Referenced(t, t.users[id].id) ==> o.tables == t)
  {
  }

  /**
    Creating then deleting a user that did not exist gives back the original tables. The new
    row's primary key is fresh, so no reservation belongs to it yet.
  */
  lemma CreateThenDelete(t: Tables, secret: string, e: Event, freshId: Id, freshId2: Id)
    requires Valid(t) && secret != "" && e.UserCreated? && TruthyString(FirstEmail(e.emails))
    requires e.id !in t.users && !Referenced(t, freshId)
    ensures var t1 := Spec(t, secret, Some(e), freshId).tables;
            Spec(t1, secret, Some(UserDeleted(e.id)), freshId2).tables == t
  {
    var t1 := Spec(t, secret, Some(e), freshId).tables;
    assert t1.users - {e.id} == t.users;
  }
}
