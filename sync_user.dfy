/**
  Find-or-create of the signed-in user's row: the row with the session's `clerkId` is returned
  when it exists; otherwise the identity provider's profile is fetched and a row created from it.
*/
module SyncUser {
  import opened Common
  import opened Records
  import opened Store
  import opened Database

  /** The fields of an identity-provider profile the sync reads. */
  datatype Profile = Profile(emails: seq<string>, firstName: Option<string>, lastName: Option<string>)

  const NoUserId: string := "Unauthorized: No user ID"
  const FetchFailed: string := "Failed to fetch Clerk user"

  /** The role a new row gets when none is given. */
  const DefaultRole: string := "USER"

  /** The first address, or `''` when there is none (or it is empty). */
  function PrimaryEmail(emails: seq<string>): (e: string)
    ensures emails == [] ==> e == ""
    ensures emails != [] ==> e == emails[0]
  {
    if emails == [] then "" else emails[0]
  }

  /** The row created for a profile. */
  function NewUser(id: Id, clerkId: string, p: Profile): User {
    User(id, clerkId, PrimaryEmail(p.emails), OrUndefined(p.firstName), OrUndefined(p.lastName), DefaultRole)
  }

  datatype Outcome = Outcome(user: Result<User>, tables: Tables)

  /**
    `syncUserWithPrisma` as a function. `profile` is what the profile fetch gives: `None` when
    the response is not OK. `freshId` is the primary key the database would assign.
  */
  function Spec(t: Tables, userId: Option<string>, profile: Option<Profile>, freshId: Id): (o: Outcome)
    requires Valid(t)
    ensures Valid(o.tables)
    ensures o.user.Failure? ==> o.tables == t
    ensures !TruthyString(userId) ==> o.user == Failure(NoUserId)
    ensures o.user.Success? ==>
              && TruthyString(userId) && o.user.value.clerkId == userId.value
              && userId.value in o.tables.users && o.tables.users[userId.value] == o.user.value
              && o.tables.(users := t.users) == t
              && o.tables.users == t.users[userId.value := o.user.value]
    ensures TruthyString(userId) && userId.value in t.users ==> o == Outcome(Success(t.users[userId.value]), t)
    ensures TruthyString(userId) && userId.value !in t.users ==>
              o.user == (if profile.None? then Failure(FetchFailed) else Success(NewUser(freshId, userId.value, profile.value)))
  {
    if !TruthyString(userId) then Outcome(Failure(NoUserId), t)
    else if userId.value in t.users then Outcome(Success(t.users[userId.value]), t)
    else if profile.None? then Outcome(Failure(FetchFailed), t)
    else
      var u := NewUser(freshId, userId.value, profile.value);
      Outcome(Success(u), AddUser(t, u).value)
  }

  /** The sync against the database. */
  method Sync(db: Db, userId: Option<string>, profile: Option<Profile>, freshId: Id) returns (r: Result<User>)
    requires db.Valid()
    modifies db
    ensures Outcome(r, db.Snapshot()) == Spec(old(db.Snapshot()), userId, profile, freshId)
    ensures db.Valid()
  {
    if !TruthyString(userId) {
      return Failure(NoUserId);
    }
    var clerkId := userId.value;
    if clerkId in db.users {
      return Success(db.users[clerkId]);
    }
    if profile.None? {
      return Failure(FetchFailed);
    }
    var u := NewUser(freshId, clerkId, profile.value);
    var ok := db.InsertUser(u);
    r := Success(u);
  }

  /**
    Find-or-create is idempotent: a second sync for the same user finds the row the first one
    returned, whatever the profile and fresh id, and changes nothing.
  */
  lemma SyncIdempotent(t: Tables, userId: Option<string>, p1: Option<Profile>, id1: Id, p2: Option<Profile>, id2: Id)
    requires Valid(t)
    requires Spec(t, userId, p1, id1).user.Success?
    ensures var o1 := Spec(t, userId, p1, id1);
            Spec(o1.tables, userId, p2, id2) == o1
  {
  }

  /** A sync adds at most one row, and only under the session's `clerkId`. */
  lemma SyncAddsAtMostOne(t: Tables, userId: Option<string>, p: Option<Profile>, freshId: Id)
    requires Valid(t)
    ensures var t' := Spec(t, userId, p, freshId).tables;
            && t.users.Keys <= t'.users.Keys
            && (t'.users.Keys - t.users.Keys == {} || (TruthyString(userId) && t'.users.Keys - t.users.Keys == {userId.value}))
            && (forall c | c in t.users :: t'.users[c] == t.users[c])
  {
  }
}
