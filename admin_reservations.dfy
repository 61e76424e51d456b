/**
  The admin listing of every reservation: an optional exact status filter, pagination (20 rows
  by default), newest first, with the booking user's display name and the payment, if any.
*/
module AdminReservations {
  import opened Common
  import opened Records
  import opened Sorting

  /** A reservation with the relations the query includes. */
  datatype Row = Row(reservation: Reservation, user: User, resource: Resource, payment: Option<Payment>)

  datatype PaymentView = PaymentView(amountCents: int, status: PaymentStatus, sessionId: string)

  /** The `flightDetails` object: three fields read from the flight's metadata. */
  datatype FlightDetails = FlightDetails(origin: Option<string>, destination: Option<string>, departureTime: Option<string>)

  datatype Item = Item(
    id: Id,
    userId: Id,
    userEmail: string,
    userName: string,
    resourceId: Id,
    resourceName: string,
    passengerCount: int,
    passengers: seq<Passenger>,
    status: ReservationStatus,
    confirmedAt: Option<Time>,
    createdAt: Time,
    payment: Option<PaymentView>,
    flightDetails: FlightDetails)

  datatype Listing = Listing(reservations: seq<Item>, total: nat, page: int, limit: int, pages: nat)

  /** `String.prototype.trim` leaves a string with non-blank ends unchanged. */
  lemma TrimKeeps(s: string)
    requires s == [] || (!IsSpace(s[0]) && !IsSpace(s[|s| - 1]))
    ensures Trim(s) == s
  {
  }

  /** `` `${first || ''} ${last || ''}`.trim() || 'N/A' ``. */
  function UserName(first: Option<string>, last: Option<string>): (name: string)
    ensures name != "" && !IsSpace(name[0]) && !IsSpace(name[|name| - 1])
    ensures !TruthyString(first) && !TruthyString(last) ==> name == "N/A"
    ensures var joined := OrElse(first, "") + " " + OrElse(last, "");
            && ((forall i :: 0 <= i < |joined| ==> IsSpace(joined[i])) ==> name == "N/A")
            && ((exists i :: 0 <= i < |joined| && !IsSpace(joined[i])) ==> name == Trim(joined))
  {
    var joined := Trim(OrElse(first, "") + " " + OrElse(last, ""));
    if joined == "" then NotApplicableTrimmed(); "N/A" else joined
  }

  lemma NotApplicableTrimmed()
    ensures var n := "N/A"; !IsSpace(n[0]) && !IsSpace(n[|n| - 1])
  {
    var n := "N/A";
    assert n[0] == 'N' && n[|n| - 1] == 'A';
  }

  /** Two names with non-blank ends are shown as `first last`. */
  lemma FullName(first: string, last: string)
    requires first != "" && !IsSpace(first[0]) && !IsSpace(first[|first| - 1])
    requires last != "" && !IsSpace(last[0]) && !IsSpace(last[|last| - 1])
    ensures UserName(Some(first), Some(last)) == first + " " + last
  {
    var s := first + " " + last;
    assert s[0] == first[0] && s[|s| - 1] == last[|last| - 1];
    TrimKeeps(s);
  }

  /** A single name with non-blank ends is shown alone: the separating space is trimmed away. */
  lemma FirstNameOnly(first: string, last: Option<string>)
    requires first != "" && !IsSpace(first[0]) && !IsSpace(first[|first| - 1]) && !TruthyString(last)
    ensures UserName(Some(first), last) == first
  {
    var s := first + " ";
    assert OrElse(Some(first), "") + " " + OrElse(last, "") == s;
    assert s[..|s| - 1] == first;
    assert s[0] == first[0];
    assert LeadingBlanks(s) == 0;
    assert TrailingBlanks(s) == 1;
  }

  /** A single last name with non-blank ends is shown alone: the leading space is trimmed away. */
  lemma LastNameOnly(first: Option<string>, last: string)
    requires !TruthyString(first) && last != "" && !IsSpace(last[0]) && !IsSpace(last[|last| - 1])
    ensures UserName(first, Some(last)) == last
  {
    var s := " " + last;
    assert OrElse(first, "") + " " + OrElse(Some(last), "") == s;
    assert s[1..] == last;
    assert s[|s| - 1] == last[|last| - 1];
    assert LeadingBlanks(s) == 1;
    assert TrailingBlanks(s) == 0;
  }

  function Format(row: Row): (item: Item)
    ensures item.payment.Some? <==> row.payment.Some?
    ensures row.payment.Some? ==> item.payment.value.amountCents == row.payment.value.amountCents
                                  && item.payment.value.status == row.payment.value.status
                                  && item.payment.value.sessionId == row.payment.value.sessionId
    ensures item.userName == UserName(row.user.firstName, row.user.lastName)
    ensures item.id == row.reservation.id && item.status == row.reservation.status
    ensures item.createdAt == row.reservation.createdAt && item.confirmedAt == row.reservation.confirmedAt
    ensures item.userId == row.user.id && item.userEmail == row.user.email
    ensures item.resourceId == row.resource.id && item.resourceName == row.resource.name
    ensures item.passengerCount == row.reservation.passengerCount && item.passengers == row.reservation.passengers
    ensures item.flightDetails.origin == Field(row.resource.metadata, "origin")
    ensures item.flightDetails.destination == Field(row.resource.metadata, "destination")
    ensures item.flightDetails.departureTime == Field(row.resource.metadata, "departureTime")
  {
    var r := row.reservation;
    var m := row.resource.metadata;
    Item(r.id, row.user.id, row.user.email, UserName(row.user.firstName, row.user.lastName),
         row.resource.id, row.resource.name, r.passengerCount, r.passengers, r.status, r.confirmedAt, r.createdAt,
         if row.payment.Some? then Some(PaymentView(row.payment.value.amountCents, row.payment.value.status,
                                                     row.payment.value.sessionId))
         else None,
         FlightDetails(Field(m, "origin"), Field(m, "destination"), Field(m, "departureTime")))
  }

  function FormatAll(rows: seq<Row>): (items: seq<Item>)
    ensures |items| == |rows|
    ensures forall i :: 0 <= i < |rows| ==> items[i] == Format(rows[i])
  {
    seq(|rows|, i requires 0 <= i < |rows| => Format(rows[i]))
  }

  lemma FormatAllKeeps(w: seq<Row>, filter: Option<ReservationStatus>)
    requires forall i, j :: 0 <= i < j < |w| ==> w[i].reservation.createdAt >= w[j].reservation.createdAt
    requires forall i :: 0 <= i < |w| ==> Keeps(filter, w[i])
    ensures var items := FormatAll(w);
            && (forall i, j :: 0 <= i < j < |items| ==> items[i].createdAt >= items[j].createdAt)
            && (forall i :: 0 <= i < |items| ==> filter.None? || items[i].status == filter.value)
  {
    var items := FormatAll(w);
    forall i | 0 <= i < |items|
      ensures filter.None? || items[i].status == filter.value
    {
      assert Keeps(filter, w[i]);
    }
  }

  /** The status names the filter accepts; any other non-empty name makes the query throw. */
  function ParseStatus(s: string): (r: Option<ReservationStatus>)
    ensures r == Some(PendingPayment) <==> s == "PENDING_PAYMENT"
    ensures r == Some(Confirmed) <==> s == "CONFIRMED"
    ensures r == Some(Cancelled) <==> s == "CANCELLED"
  {
    if s == "PENDING_PAYMENT" then Some(PendingPayment)
    else if s == "CONFIRMED" then Some(Confirmed)
    else if s == "CANCELLED" then Some(Cancelled)
    else None
  }

  function NewestFirst(row: Row): int { -row.reservation.createdAt }

  predicate Keeps(status: Option<ReservationStatus>, x: Row) {
    status.None? || x.reservation.status == status.value
  }

  /** The rows the `where` clause keeps: all of them, or those with exactly that status. */
  function Matching(rows: seq<Row>, status: Option<ReservationStatus>): (r: seq<Row>)
    ensures forall x :: x in r <==> x in rows && Keeps(status, x)
    ensures forall x :: multiset(r)[x] == if Keeps(status, x) then multiset(rows)[x] else 0
    ensures IsSubsequence(r, rows)
  {
    Select(rows, (x: Row) => Keeps(status, x))
  }

  /**
    One page of the matching rows, formatted: the `take` rows from position `skip` of the
    matching rows ordered newest first, so newest first, and every item has the filtered status.
  */
  function PageItems(matching: seq<Row>, filter: Option<ReservationStatus>, skip: nat, take: nat): (items: seq<Item>)
    requires forall x :: x in matching ==> Keeps(filter, x)
    ensures |items| <= take
    ensures |items| == Min(take, Max(0, |matching| - skip))
    ensures forall i :: 0 <= i < |items| ==> items[i] == Format(InsertionSort(matching, NewestFirst)[skip + i])
    ensures forall i, j :: 0 <= i < j < |items| ==> items[i].createdAt >= items[j].createdAt
    ensures forall i :: 0 <= i < |items| ==> filter.None? || items[i].status == filter.value
  {
    PageFacts(matching, filter, skip, take);
    FormatAll(PageRows(matching, skip, take))
  }

  /**
    The route. `admin` is what the admin gate gave; every failure of it, like any other error,
    becomes 500. `page`/`limit`/`status` are the query parameters, `None` when absent or empty.
  */
  function Get(admin: Result<string>, rows: seq<Row>, page: Option<int>, limit: Option<int>, status: Option<string>): (r: Reply<Listing>)
    requires page.Some? ==> page.value >= 1
    requires limit.Some? ==> limit.value >= 1
    ensures r.Err? ==> r == Err(500, "Failed to fetch reservations")
    ensures r.Ok? <==> admin.Success? && (!TruthyString(status) || ParseStatus(status.value).Some?)
    ensures r.Ok? ==>
              var filter := if TruthyString(status) then ParseStatus(status.value) else None;
              var matching := Matching(rows, filter);
              && r.status == 200
              && r.value.page == (if page.Some? then page.value else 1)
              && r.value.limit == (if limit.Some? then limit.value else 20)
              && r.value.total == |matching|
              && r.value.pages == CeilDiv(r.value.total, r.value.limit)
              && |r.value.reservations| <= r.value.limit
              && r.value.reservations == PageItems(matching, filter, PageOffset(r.value.page, r.value.limit), r.value.limit)
              && (forall i, j :: 0 <= i < j < |r.value.reservations| ==>
                    r.value.reservations[i].createdAt >= r.value.reservations[j].createdAt)
              && (forall i :: 0 <= i < |r.value.reservations| ==>
                    filter.None? || r.value.reservations[i].status == filter.value)
  {
    if admin.Failure? then Err(500, "Failed to fetch reservations")
    else if TruthyString(status) && ParseStatus(status.value).None? then Err(500, "Failed to fetch reservations")
    else
      var p := if page.Some? then page.value else 1;
      var l := if limit.Some? then limit.value else 20;
      var filter := if TruthyString(status) then ParseStatus(status.value) else None;
      var matching := Matching(rows, filter);
      Ok(200, Listing(PageItems(matching, filter, PageOffset(p, l), l), |matching|, p, l, CeilDiv(|matching|, l)))
  }

  /** The rows of one page: a window of the matching rows ordered newest first. */
  function PageRows(matching: seq<Row>, skip: nat, take: nat): seq<Row> {
    Window(InsertionSort(matching, NewestFirst), skip, take)
  }

  /**
    A window of the sorted matching rows holds the rows from position `skip` of that order, at
    most `take` of them, is newest first and keeps only matching rows.
  */
  lemma PageFacts(matching: seq<Row>, filter: Option<ReservationStatus>, skip: nat, take: nat)
    requires forall x :: x in matching ==> Keeps(filter, x)
    ensures var items := FormatAll(PageRows(matching, skip, take));
      && |items| <= take
      && |items| == Min(take, Max(0, |matching| - skip))
      && (forall i :: 0 <= i < |items| ==> items[i] == Format(InsertionSort(matching, NewestFirst)[skip + i]))
      && (forall i, j :: 0 <= i < j < |items| ==> items[i].createdAt >= items[j].createdAt)
      && (forall i :: 0 <= i < |items| ==> filter.None? || items[i].status == filter.value)
  {
    var ordered := InsertionSort(matching, NewestFirst);
    InsertionSortSorted(matching, NewestFirst);
    InsertionSortPermutes(matching, NewestFirst);
    var w := PageRows(matching, skip, take);
    forall i, j | 0 <= i < j < |w|
      ensures w[i].reservation.createdAt >= w[j].reservation.createdAt
    {
      assert NewestFirst(ordered[skip + i]) <= NewestFirst(ordered[skip + j]);
    }
    forall i | 0 <= i < |w|
      ensures Keeps(filter, w[i])
    {
      assert w[i] in multiset(ordered);
      assert w[i] in matching;
    }
    FormatAllKeeps(w, filter);
  }

  /**
    The page lists the reservations from position `(page - 1) * limit` of the matching ones
    ordered newest first, `limit` of them or as many as remain.
  */
  lemma GetWindow(admin: Result<string>, rows: seq<Row>, page: Option<int>, limit: Option<int>, status: Option<string>)
    requires page.Some? ==> page.value >= 1
    requires limit.Some? ==> limit.value >= 1
    requires Get(admin, rows, page, limit, status).Ok?
    ensures var l := Get(admin, rows, page, limit, status).value;
            var filter := if TruthyString(status) then ParseStatus(status.value) else None;
            var ordered := InsertionSort(Matching(rows, filter), NewestFirst);
            l.reservations == FormatAll(Window(ordered, PageOffset(l.page, l.limit), l.limit))
  {
  }

  /** An empty status filter counts and lists every reservation. */
  lemma NoFilterCountsAll(admin: Result<string>, rows: seq<Row>, page: Option<int>, limit: Option<int>)
    requires admin.Success?
    requires page.Some? ==> page.value >= 1
    requires limit.Some? ==> limit.value >= 1
    ensures Get(admin, rows, page, limit, Some("")).value.total == |rows|
    ensures Get(admin, rows, page, limit, None).value.total == |rows|
  {
    SelectAll(rows, (x: Row) => Keeps(None, x));
  }
}
