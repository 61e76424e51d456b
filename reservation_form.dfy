/**
  The booking form shown on a flight's page. It holds a passenger count and one details entry
  per passenger, keeps the two in step whenever the count changes, and submits the pair with the
  flight's id to the checkout route.
*/
module BookingForm {
  import opened Common
  import opened Records
  import opened Store
  import CreateCheckout

  /** The three text inputs of a passenger entry. */
  datatype Field = FirstName | LastName | PassportNumber

  function FieldOf(p: Passenger, field: Field): string {
    match field
    case FirstName => p.firstName
    case LastName => p.lastName
    case PassportNumber => p.passportNumber
  }

  /** Writes one input of an entry; the other two keep their text. */
  function SetField(p: Passenger, field: Field, value: string): (q: Passenger)
    ensures FieldOf(q, field) == value
    ensures forall f :: f != field ==> FieldOf(q, f) == FieldOf(p, f)
  {
    match field
    case FirstName => p.(firstName := value)
    case LastName => p.(lastName := value)
    case PassportNumber => p.(passportNumber := value)
  }

  /**
    The count the form keeps for a requested one: at least one passenger and, when the flight
    has a free seat, no more passengers than free seats.
  */
  function ClampCount(newCount: int, availableSlots: int): (count: int)
    ensures count >= 1
    ensures availableSlots >= 1 ==> count <= availableSlots
    ensures 1 <= newCount <= availableSlots ==> count == newCount
    ensures newCount < 1 ==> count == 1
    ensures newCount > availableSlots ==> count == Max(1, availableSlots)
  {
    Max(1, Min(newCount, availableSlots))
  }

  /**
    The entries for `count` passengers: the existing entries are kept as typed, missing ones
    are added blank at the end, surplus ones are dropped from the end.
  */
  function Resize(ps: seq<Passenger>, count: nat): (r: seq<Passenger>)
    ensures |r| == count
    ensures forall i :: 0 <= i < Min(|ps|, count) ==> r[i] == ps[i]
    ensures forall i :: |ps| <= i < count ==> r[i] == BlankPassenger
  {
    if count > |ps| then ps + seq(count - |ps|, _ => BlankPassenger)
    else if count < |ps| then ps[..count]
    else ps
  }

  /** Raising the count and lowering it back restores the entries exactly. */
  lemma GrowThenShrink(ps: seq<Passenger>, count: nat)
    requires count >= |ps|
    ensures Resize(Resize(ps, count), |ps|) == ps
  {
    assert Resize(ps, count)[..|ps|] == ps;
  }

  /**
    Lowering the count forgets what was typed for the dropped passengers: raising it again
    gives them blank entries.
  */
  lemma ShrinkThenGrowForgets(ps: seq<Passenger>, count: nat, i: nat)
    requires count <= i < |ps|
    ensures Resize(Resize(ps, count), |ps|)[i] == BlankPassenger
  {
  }

  /** What the form hands to its `onSubmit` callback, the checkout request's body. */
  datatype Payload = Payload(resourceId: Id, passengerCount: int, passengers: seq<Passenger>)

  /** The checkout request a payload becomes, every field present. */
  function AsRequest(p: Payload): (req: CreateCheckout.Request)
    ensures req.resourceId == Some(p.resourceId) && req.passengerCount == Some(p.passengerCount)
    ensures req.passengers == Some(p.passengers)
  {
    CreateCheckout.Request(Some(p.resourceId), Some(p.passengerCount), Some(p.passengers))
  }

  class ReservationForm {
    const resourceId: Id
    const availableSlots: int
    /** The flight's price per passenger, in cents. */
    const price: int
    var passengerCount: int
    var passengers: seq<Passenger>

    /** One entry per passenger, at least one passenger, and no more than the free seats. */
    ghost predicate Valid()
      reads this
    {
      && passengerCount >= 1
      && |passengers| == passengerCount
      && (availableSlots >= 1 ==> passengerCount <= availableSlots)
    }

    /** The form opens with one passenger and one blank entry. */
    constructor (resourceId: Id, availableSlots: int, price: int)
      ensures this.resourceId == resourceId && this.availableSlots == availableSlots && this.price == price
      ensures passengerCount == 1 && passengers == [BlankPassenger]
      ensures Valid()
    {
      this.resourceId := resourceId;
      this.availableSlots := availableSlots;
      this.price := price;
      passengerCount := 1;
      passengers := [BlankPassenger];
    }

    /** The displayed total, in cents (the page divides it by 100 for display). */
    function TotalPriceCents(): (cents: int)
      reads this
      ensures passengerCount >= 1 && price >= 0 ==> cents >= price
      ensures cents == price * passengerCount
    {
      price * passengerCount
    }

    /** The `-`/`+` buttons and the count input: clamp the count, then resize the entries. */
    method ChangePassengerCount(newCount: int)
      requires Valid()
      modifies this
      ensures passengerCount == ClampCount(newCount, availableSlots)
      ensures passengers == Resize(old(passengers), passengerCount)
      ensures Valid()
    {
      var count := Max(1, Min(newCount, availableSlots));
      passengerCount := count;
      if count > |passengers| {
        passengers := passengers + seq(count - |passengers|, _ => BlankPassenger);
      } else if count < |passengers| {
        passengers := passengers[..count];
      }
    }

    /**
      Typing into one input of entry `index`. An index with no entry leaves the form as it was
      (the handler throws before storing anything).
    */
    method ChangePassenger(index: int, field: Field, value: string)
      requires Valid()
      modifies this
      ensures passengerCount == old(passengerCount)
      ensures 0 <= index < |old(passengers)| ==>
                passengers == old(passengers)[index := SetField(old(passengers)[index], field, value)]
      ensures !(0 <= index < |old(passengers)|) ==> passengers == old(passengers)
      ensures Valid()
    {
      if 0 <= index < |passengers| {
        passengers := passengers[index := SetField(passengers[index], field, value)];
      }
    }

    /** The submitted body: the flight's id with the current count and entries. */
    method Submit() returns (p: Payload)
      requires Valid()
      ensures p == Payload(resourceId, passengerCount, passengers)
      ensures p.passengerCount >= 1 && |p.passengers| == p.passengerCount
    {
      p := Payload(resourceId, passengerCount, passengers);
    }
  }

  /**
    The total the form shows is what the checkout records as the payment's amount, when the
    form was opened with the flight's current price and its entries are submitted as they stand.
  */
  lemma ShownTotalIsCharged(t: Tables, authUserId: Option<string>, form: ReservationForm,
                            env: CreateCheckout.Env, ids: CreateCheckout.FreshIds)
    requires Valid(t) && ids.reservation !in t.reservations && ids.payment !in t.payments
    requires form.Valid()
    requires form.resourceId in t.resources && t.resources[form.resourceId].priceInCents == form.price
    requires CreateCheckout.Spec(t, authUserId, AsRequest(Payload(form.resourceId, form.passengerCount, form.passengers)),
                                 env, ids).reply.Ok?
    ensures CreateCheckout.Spec(t, authUserId, AsRequest(Payload(form.resourceId, form.passengerCount, form.passengers)),
                                env, ids).tables.payments[ids.payment].amountCents
            == form.TotalPriceCents()
  {
    CreateCheckout.CheckoutCreates(t, authUserId, AsRequest(Payload(form.resourceId, form.passengerCount, form.passengers)),
                                   env, ids);
  }
}
