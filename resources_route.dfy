/**
  The flights API: a paginated, searchable listing (newest first) and admin-only creation of a
  flight, which starts with every seat available.
*/
module ResourcesRoute {
  import opened Common
  import opened Records
  import opened Store
  import opened Database
  import opened Sorting
  import Roles

  // ----- GET -----

  /** A flight matches a non-empty search when its name or description contains it, ignoring case. */
  predicate MatchesSearch(r: Resource, search: string) {
    search == ""
    || ContainsInsensitive(r.name, search)
    || (r.description.Some? && ContainsInsensitive(r.description.value, search))
  }

  /** The rows the `where` clause keeps, in their storage order. */
  function Filter(rows: seq<Resource>, search: string): (r: seq<Resource>)
    ensures |r| <= |rows|
    ensures forall x :: x in r <==> x in rows && MatchesSearch(x, search)
    ensures forall x :: multiset(r)[x] == if MatchesSearch(x, search) then multiset(rows)[x] else 0
    ensures IsSubsequence(r, rows)
  {
    Select(rows, (x: Resource) => MatchesSearch(x, search))
  }

  /** An empty search keeps every flight. */
  lemma EmptySearchKeepsAll(rows: seq<Resource>)
    ensures Filter(rows, "") == rows
  {
    SelectAll(rows, (x: Resource) => MatchesSearch(x, ""));
  }

  /** The sort key of `orderBy: { createdAt: 'desc' }`. */
  function NewestFirst(r: Resource): int { -r.createdAt }

  datatype Listing = Listing(data: seq<Resource>, total: nat, page: int, limit: int, pages: nat)

  /** A window of a newest-first sequence is newest first. */
  lemma WindowNewestFirst(s: seq<Resource>, skip: nat, take: nat)
    requires SortedBy(s, NewestFirst)
    ensures var w := Window(s, skip, take);
            forall i, j :: 0 <= i < j < |w| ==> w[i].createdAt >= w[j].createdAt
  {
    var w := Window(s, skip, take);
    forall i, j | 0 <= i < j < |w|
      ensures w[i].createdAt >= w[j].createdAt
    {
      assert NewestFirst(s[skip + i]) <= NewestFirst(s[skip + j]);
    }
  }

  /** Every element of a window of a permutation of `s` is in `s`. */
  lemma WindowMembers(s: seq<Resource>, sorted: seq<Resource>, skip: nat, take: nat)
    requires multiset(sorted) == multiset(s)
    ensures forall x :: x in Window(sorted, skip, take) ==> x in s
  {
    forall x | x in Window(sorted, skip, take)
      ensures x in s
    {
      assert x in multiset(sorted);
    }
  }

  /**
    The listing for the query parameters (`None` when absent or empty). `rows` is the table in
    storage order; the query leaves flights created at the same instant in no fixed order, and
    the model's stable sort keeps them in storage order, one of the orders it allows. Page 1 and
    10 rows are the defaults; the page holds at most `limit` flights, newest first, every one
    matching the search; `total` counts all matching flights and `pages` is `ceil(total / limit)`.
  */
  function Get(rows: seq<Resource>, page: Option<int>, limit: Option<int>, search: Option<string>): (r: Reply<Listing>)
    requires page.Some? ==> page.value >= 1
    requires limit.Some? ==> limit.value >= 1
    ensures r.Ok? && r.status == 200
    ensures r.value.page == (if page.Some? then page.value else 1)
    ensures r.value.limit == (if limit.Some? then limit.value else 10)
    ensures |r.value.data| <= r.value.limit
    ensures r.value.total == |Filter(rows, OrElse(search, ""))|
    ensures r.value.pages == CeilDiv(r.value.total, r.value.limit)
    ensures forall i, j :: 0 <= i < j < |r.value.data| ==> r.value.data[i].createdAt >= r.value.data[j].createdAt
    ensures forall x :: x in r.value.data ==> x in rows && MatchesSearch(x, OrElse(search, ""))
  {
    var p := if page.Some? then page.value else 1;
    var l := if limit.Some? then limit.value else 10;
    var matching := Filter(rows, OrElse(search, ""));
    var ordered := InsertionSort(matching, NewestFirst);
    InsertionSortSorted(matching, NewestFirst);
    InsertionSortPermutes(matching, NewestFirst);
    var skip := PageOffset(p, l);
    WindowNewestFirst(ordered, skip, l);
    WindowMembers(matching, ordered, skip, l);
    Ok(200, Listing(Window(ordered, skip, l), |matching|, p, l, CeilDiv(|matching|, l)))
  }

  /**
    The page is the slice of the matching flights, ordered newest first, that starts at
    position `(page - 1) * limit`.
  */
  lemma GetWindow(rows: seq<Resource>, page: Option<int>, limit: Option<int>, search: Option<string>)
    requires page.Some? ==> page.value >= 1
    requires limit.Some? ==> limit.value >= 1
    ensures var l := Get(rows, page, limit, search).value;
            var ordered := InsertionSort(Filter(rows, OrElse(search, "")), NewestFirst);
            l.data == Window(ordered, PageOffset(l.page, l.limit), l.limit)
  {
  }

  // ----- POST -----

  /** The JSON body of a creation request; absent fields are `None`. */
  datatype NewFlight = NewFlight(
    name: Option<string>,
    description: Option<string>,
    kind: Option<string>,
    maxSlots: Option<int>,
    priceInCents: Option<int>,
    currency: Option<string>,
    metadata: Option<Metadata>)

  /** Every required field is truthy: a zero capacity or a zero price is refused too. */
  predicate Complete(b: NewFlight) {
    TruthyString(b.name) && TruthyString(b.kind) && TruthyInt(b.maxSlots)
    && TruthyInt(b.priceInCents) && TruthyString(b.currency)
  }

  /** The row created for a complete body: all seats available, metadata `{}` by default. */
  function NewRow(b: NewFlight, id: Id, now: Time): (r: Resource)
    requires Complete(b)
    ensures r.availableSlots == r.maxSlots == b.maxSlots.value
    ensures r.metadata == (if b.metadata.Some? then b.metadata.value else map[])
  {
    Resource(id, b.name.value, b.description, b.kind.value, b.maxSlots.value, b.maxSlots.value,
             b.priceInCents.value, b.currency.value, if b.metadata.Some? then b.metadata.value else map[], now)
  }

  datatype Outcome = Outcome(reply: Reply<Resource>, tables: Tables)

  /**
    The creation route. `admin` is what the admin gate gave: the user's id, or the message of the
    error it threw. `freshId` is the primary key the database would assign.
  */
  function Post(t: Tables, admin: Result<string>, body: NewFlight, freshId: Id, now: Time): (o: Outcome)
    requires Valid(t) && freshId !in t.resources
    ensures Valid(o.tables)
    ensures o.reply.Ok? <==> admin.Success? && Complete(body)
    ensures o.reply.Ok? ==> o.reply.status == 201 && o.reply.value == NewRow(body, freshId, now)
                            && o.tables == AddResource(t, NewRow(body, freshId, now))
    ensures o.reply.Err? ==> o.tables == t
    ensures admin == Failure(Roles.Unauthorized) ==> o.reply == Err(401, "Unauthorized")
    ensures admin == Failure(Roles.Forbidden) ==> o.reply == Err(403, "Admin access required")
    ensures admin.Failure? && admin.message != Roles.Unauthorized && admin.message != Roles.Forbidden ==>
              o.reply == Err(500, "Failed to create resource")
    ensures admin.Success? && !Complete(body) ==> o.reply == Err(400, "Missing required fields")
  {
    if admin.Failure? then
      if admin.message == Roles.Forbidden then Outcome(Err(403, "Admin access required"), t)
      else if admin.message == Roles.Unauthorized then Outcome(Err(401, "Unauthorized"), t)
      else Outcome(Err(500, "Failed to create resource"), t)
    else if !Complete(body) then Outcome(Err(400, "Missing required fields"), t)
    else
      var r := NewRow(body, freshId, now);
      Outcome(Ok(201, r), AddResource(t, r))
  }

  /** The creation handler, updating the database in place. */
  method PostHandler(db: Db, admin: Result<string>, body: NewFlight, freshId: Id, now: Time) returns (reply: Reply<Resource>)
    requires db.Valid() && freshId !in db.resources
    modifies db
    ensures Outcome(reply, db.Snapshot()) == Post(old(db.Snapshot()), admin, body, freshId, now)
    ensures db.Valid()
  {
    if admin.Failure? {
      if admin.message == Roles.Forbidden {
        return Err(403, "Admin access required");
      }
      if admin.message == Roles.Unauthorized {
        return Err(401, "Unauthorized");
      }
      return Err(500, "Failed to create resource");
    }
    if !Complete(body) {
      return Err(400, "Missing required fields");
    }
    var r := NewRow(body, freshId, now);
    db.InsertResource(r);
    reply := Ok(201, r);
  }

  /**
    With the admin gate of the role rules: a signed-out caller gets 401, a signed-in non-admin
    403, and neither creates a row.
  */
  lemma PostGate(t: Tables, sessionUserId: Option<string>, roleOf: string -> Option<string>, body: NewFlight, freshId: Id, now: Time)
    requires Valid(t) && freshId !in t.resources
    ensures var o := Post(t, Roles.RequireAdmin(sessionUserId, roleOf), body, freshId, now);
      && (!TruthyString(sessionUserId) ==> o == Outcome(Err(401, "Unauthorized"), t))
      && (TruthyString(sessionUserId) && roleOf(sessionUserId.value) != Some(Roles.AdminRole) ==>
            o == Outcome(Err(403, "Admin access required"), t))
  {
  }
}
