/**
  The signed-in user's reservations, newest first, each with its flight and the price paid. The
  rows are those of the reservation query, each joined with its flight and, when there is one,
  its payment.
*/
module ReservationsRoute {
  import opened Common
  import opened Records
  import opened Sorting

  /** A reservation with the relations the query includes. */
  datatype Row = Row(reservation: Reservation, resource: Resource, payment: Option<Payment>)

  /** One formatted reservation of the answer. */
  datatype Item = Item(
    id: Id,
    resourceId: Id,
    resourceName: string,
    passengerCount: int,
    status: ReservationStatus,
    confirmedAt: Option<Time>,
    totalPrice: int,
    departureTime: Option<string>,
    origin: Option<string>,
    destination: Option<string>)

  /**
    The price shown, in cents: the whole euros of the payment's amount times 100 when there is a
    payment, so the cents of the amount are dropped; otherwise the flight's price times the
    passenger count.
  */
  function TotalPrice(row: Row): (cents: int)
    ensures row.payment.None? ==> cents == row.resource.priceInCents * row.reservation.passengerCount
    ensures row.payment.Some? && row.payment.value.amountCents >= 0 ==>
              cents % 100 == 0 && cents <= row.payment.value.amountCents < cents + 100
    ensures row.payment.Some? && row.payment.value.amountCents % 100 == 0 ==> cents == row.payment.value.amountCents
  {
    if row.payment.Some? then WholeEuros(row.payment.value.amountCents) * 100
    else row.resource.priceInCents * row.reservation.passengerCount
  }

  /** A paid amount of 129.50 euros is shown as 12900 cents. */
  lemma FractionDropped(row: Row)
    requires row.payment.Some? && row.payment.value.amountCents == 12950
    ensures TotalPrice(row) == 12900
  {
  }

  function Format(row: Row): (item: Item)
    ensures item.id == row.reservation.id && item.resourceId == row.reservation.resourceId
    ensures item.status == row.reservation.status && item.confirmedAt == row.reservation.confirmedAt
    ensures item.passengerCount == row.reservation.passengerCount
    ensures item.totalPrice == TotalPrice(row)
    ensures item.resourceName == row.resource.name
    ensures item.departureTime == Field(row.resource.metadata, "departureTime")
    ensures item.origin == Field(row.resource.metadata, "origin")
    ensures item.destination == Field(row.resource.metadata, "destination")
  {
    var r := row.reservation;
    var m := row.resource.metadata;
    Item(r.id, r.resourceId, row.resource.name, r.passengerCount, r.status, r.confirmedAt, TotalPrice(row),
         Field(m, "departureTime"), Field(m, "origin"), Field(m, "destination"))
  }

  /** The sort key of `orderBy: { createdAt: 'desc' }`. */
  function NewestFirst(row: Row): int { -row.reservation.createdAt }

  /** The user's rows, newest first (rows created at the same instant in storage order, one order the query allows). */
  function Mine(rows: seq<Row>, userId: Id): (r: seq<Row>)
    ensures forall x :: x in r <==> x in rows && x.reservation.userId == userId
    ensures forall x :: multiset(r)[x] == if x.reservation.userId == userId then multiset(rows)[x] else 0
    ensures forall i, j :: 0 <= i < j < |r| ==> r[i].reservation.createdAt >= r[j].reservation.createdAt
  {
    var selected := Select(rows, (x: Row) => x.reservation.userId == userId);
    InsertionSortSorted(selected, NewestFirst);
    InsertionSortPermutes(selected, NewestFirst);
    MembersOfPermutation(selected, InsertionSort(selected, NewestFirst));
    var sorted := InsertionSort(selected, NewestFirst);
    assert forall i, j :: 0 <= i < j < |sorted| ==> NewestFirst(sorted[i]) <= NewestFirst(sorted[j]);
    sorted
  }

  lemma MembersOfPermutation(a: seq<Row>, b: seq<Row>)
    requires multiset(a) == multiset(b)
    ensures forall x :: x in a <==> x in b
  {
    forall x
      ensures x in a <==> x in b
    {
      assert x in a <==> x in multiset(a);
      assert x in b <==> x in multiset(b);
    }
  }

  /**
    The route. `user` is what the user sync gave (the row of the signed-in user, or the error
    it threw); `rows` is the reservation table in storage order.
  */
  function Get(user: Result<User>, rows: seq<Row>): (r: Reply<seq<Item>>)
    ensures user.Failure? ==> r == Err(500, "Failed to fetch reservations")
    ensures user.Success? ==> r.Ok? && r.status == 200
    ensures user.Success? ==>
              var mine := Mine(rows, user.value.id);
              && |r.value| == |mine|
              && forall i :: 0 <= i < |mine| ==> r.value[i] == Format(mine[i])
  {
    if user.Failure? then Err(500, "Failed to fetch reservations")
    else
      var mine := Mine(rows, user.value.id);
      Ok(200, seq(|mine|, i requires 0 <= i < |mine| => Format(mine[i])))
  }

  /** Only the caller's reservations are listed, and all of them. */
  lemma GetOnlyMine(user: User, rows: seq<Row>)
    ensures var items := Get(Success(user), rows).value;
      && (forall i :: 0 <= i < |items| ==> exists x :: x in rows && x.reservation.userId == user.id && Format(x) == items[i])
      && (forall x :: x in rows && x.reservation.userId == user.id ==> Format(x) in items)
  {
    ListedAreMine(user, rows);
    MineAreListed(user, rows);
  }

  lemma ListedAreMine(user: User, rows: seq<Row>)
    ensures var items := Get(Success(user), rows).value;
      forall i :: 0 <= i < |items| ==> exists x :: x in rows && x.reservation.userId == user.id && Format(x) == items[i]
  {
    var mine := Mine(rows, user.id);
    var items := Get(Success(user), rows).value;
    forall i | 0 <= i < |items|
      ensures exists x :: x in rows && x.reservation.userId == user.id && Format(x) == items[i]
    {
      assert mine[i] in mine && items[i] == Format(mine[i]);
    }
  }

  lemma MineAreListed(user: User, rows: seq<Row>)
    ensures var items := Get(Success(user), rows).value;
      forall x :: x in rows && x.reservation.userId == user.id ==> Format(x) in items
  {
    var mine := Mine(rows, user.id);
    var items := Get(Success(user), rows).value;
    forall x | x in rows && x.reservation.userId == user.id
      ensures Format(x) in items
    {
      var k :| 0 <= k < |mine| && mine[k] == x;
      assert items[k] == Format(x);
    }
  }
}
