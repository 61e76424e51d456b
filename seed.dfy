/**
  The seed script: two test accounts and ten flights, each written with an upsert whose update
  part is empty, so that a row already present (by `clerkId` for users, by `flight_<number>` for
  flights) is left untouched. Two of the ten flights share the number AF1234.
*/
module Seed {
  import opened Common
  import opened Records
  import opened Store
  import opened Database

  /** A flight of the seed list, with the fields of its metadata. */
  datatype Flight = Flight(
    name: string,
    description: string,
    availableSlots: int,
    maxSlots: int,
    priceInCents: int,
    number: string,
    origin: string,
    destination: string,
    departureTime: string,
    arrivalTime: string,
    airline: string)

  /** The flights in the order the script lists them. */
  const FlightList: seq<Flight> := [
    Flight("Vol Paris-Londres AF1234", "Vol direct Paris Charles de Gaulle vers Londres Heathrow",
           150, 180, 12900, "AF1234", "CDG", "LHR", "2026-02-15T10:00:00Z", "2026-02-15T11:30:00Z", "Air France"),
    Flight("Vol Paris-New York AF001", "Vol transatlantique Paris CDG vers New York JFK",
           200, 250, 45900, "AF001", "CDG", "JFK", "2026-02-20T14:00:00Z", "2026-02-20T17:30:00Z", "Air France"),
    Flight("Vol Paris-Tokyo AF275", "Vol long-courrier Paris CDG vers Tokyo Narita",
           180, 220, 78900, "AF275", "CDG", "NRT", "2026-03-01T11:45:00Z", "2026-03-02T07:15:00Z", "Air France"),
    Flight("Vol Paris-Barcelone VY8001", "Vol low-cost Paris Orly vers Barcelone El Prat",
           120, 150, 5900, "VY8001", "ORY", "BCN", "2026-02-18T07:30:00Z", "2026-02-18T09:15:00Z", "Vueling"),
    Flight("Vol Paris-Rome AF1404", "Vol direct Paris CDG vers Rome Fiumicino",
           140, 170, 15900, "AF1404", "CDG", "FCO", "2026-02-22T09:00:00Z", "2026-02-22T11:15:00Z", "Air France"),
    Flight("Vol Paris-Dubai EK073", "Vol Paris CDG vers Dubai International",
           220, 260, 52900, "EK073", "CDG", "DXB", "2026-03-05T13:30:00Z", "2026-03-05T23:00:00Z", "Emirates"),
    Flight("Vol Paris-Montréal AC870", "Vol transatlantique Paris CDG vers Montréal Trudeau",
           160, 200, 42900, "AC870", "CDG", "YUL", "2026-02-25T12:00:00Z", "2026-02-25T14:15:00Z", "Air Canada"),
    Flight("Vol Paris-Lisbonne TP440", "Vol direct Paris CDG vers Lisbonne Portela",
           110, 140, 11900, "TP440", "CDG", "LIS", "2026-02-28T08:30:00Z", "2026-02-28T10:45:00Z", "TAP Air Portugal"),
    Flight("Vol Paris-Berlin AF1234", "Vol direct Paris CDG vers Berlin Brandenburg",
           130, 160, 13900, "AF1234", "CDG", "BER", "2026-03-10T10:15:00Z", "2026-03-10T12:30:00Z", "Air France"),
    Flight("Vol Paris-Singapour SQ336", "Vol long-courrier Paris CDG vers Singapour Changi",
           190, 230, 82900, "SQ336", "CDG", "SIN", "2026-03-12T23:30:00Z", "2026-03-13T18:00:00Z", "Singapore Airlines")
  ]

  /**
    The same list, built element by element: a literal list would have the verifier unfold every
    fold over it ten times, where the lemmas below only need its length and its elements.
  */
  function Flights(): (fs: seq<Flight>)
    ensures |fs| == |FlightList|
    ensures forall i | 0 <= i < |fs| :: fs[i] == FlightList[i]
  {
    seq(|FlightList|, FlightAt)
  }

  function FlightAt(i: int): Flight
    requires 0 <= i < |FlightList|
  {
    FlightList[i]
  }

  const AdminClerkId: string := "user_test_admin_001"
  const UserClerkId: string := "user_test_user_001"

  function AdminUser(id: Id): User {
    User(id, AdminClerkId, "admin@bookyourflight.com", Some("Admin"), Some("User"), "ADMIN")
  }

  function PlainUser(id: Id): User {
    User(id, UserClerkId, "user@bookyourflight.com", Some("Test"), Some("User"), "USER")
  }

  /** The primary key a seed flight is stored under. */
  function FlightId(f: Flight): Id { "flight_" + f.number }

  /** Flights share a key exactly when they share a number. */
  lemma FlightIdInjective(f: Flight, g: Flight)
    ensures FlightId(f) == FlightId(g) <==> f.number == g.number
  {
    if FlightId(f) == FlightId(g) {
      assert f.number == FlightId(f)[|"flight_"|..];
    }
  }

  /** The row created for a seed flight; `now` is the creation time the database assigns. */
  function RowOf(f: Flight, now: Time): (r: Resource)
    ensures r.id == FlightId(f) && r.name == f.name
    ensures r.availableSlots == f.availableSlots && r.maxSlots == f.maxSlots
  {
    Resource(FlightId(f), f.name, Some(f.description), "FLIGHT", f.maxSlots, f.availableSlots, f.priceInCents, "EUR",
             map["flightNumber" := f.number, "origin" := f.origin, "destination" := f.destination,
                 "departureTime" := f.departureTime, "arrivalTime" := f.arrivalTime, "airline" := f.airline],
             now)
  }

  /** A user upsert with an empty update: insert when the `clerkId` is new, otherwise keep the row. */
  function UpsertUser(t: Tables, u: User): (t': Tables)
    ensures t'.users.Keys == t.users.Keys + {u.clerkId}
    ensures t'.users[u.clerkId] == if u.clerkId in t.users then t.users[u.clerkId] else u
    ensures forall c | c in t.users :: t'.users[c] == t.users[c]
    ensures t'.(users := t.users) == t
  {
    if u.clerkId in t.users then t else t.(users := t.users[u.clerkId := u])
  }

  /** A flight upsert with an empty update: insert when the key is new, otherwise keep the row. */
  function UpsertFlight(t: Tables, f: Flight, now: Time): (t': Tables)
    ensures t'.resources.Keys == t.resources.Keys + {FlightId(f)}
    ensures t'.resources[FlightId(f)] == if FlightId(f) in t.resources then t.resources[FlightId(f)] else RowOf(f, now)
    ensures forall k | k in t.resources :: t'.resources[k] == t.resources[k]
    ensures t'.(resources := t.resources) == t
  {
    if FlightId(f) in t.resources then t else t.(resources := t.resources[FlightId(f) := RowOf(f, now)])
  }

  /** An upsert is the store's insert when the row is new. */
  lemma UpsertIsInsert(t: Tables, f: Flight, u: User, now: Time)
    requires Valid(t)
    ensures FlightId(f) !in t.resources ==> UpsertFlight(t, f, now) == AddResource(t, RowOf(f, now))
    ensures u.clerkId !in t.users ==> UpsertUser(t, u) == AddUser(t, u).value
    ensures Valid(UpsertFlight(t, f, now)) && Valid(UpsertUser(t, u))
  {
  }

  /** The flight upserts, in list order. */
  function SeedFlights(t: Tables, fs: seq<Flight>, now: Time): Tables
    decreases |fs|
  {
    if fs == [] then t else SeedFlights(UpsertFlight(t, fs[0], now), fs[1..], now)
  }

  /** The whole script: the admin account, the regular account, then the flights. */
  function SeedAll(t: Tables, adminId: Id, userId: Id, now: Time): Tables {
    SeedFlights(Accounts(t, adminId, userId), Flights(), now)
  }

  /** The two account upserts. */
  function Accounts(t: Tables, adminId: Id, userId: Id): (t': Tables)
    ensures t'.users.Keys == t.users.Keys + {AdminClerkId, UserClerkId}
    ensures forall c | c in t.users :: t'.users[c] == t.users[c]
    ensures AdminClerkId !in t.users ==> t'.users[AdminClerkId] == AdminUser(adminId)
    ensures UserClerkId !in t.users ==> t'.users[UserClerkId] == PlainUser(userId)
    ensures t'.(users := t.users) == t
  {
    UpsertUser(UpsertUser(t, AdminUser(adminId)), PlainUser(userId))
  }

  /** The flight upserts keep the database well formed. */
  lemma {:induction false} SeedFlightsValid(t: Tables, fs: seq<Flight>, now: Time)
    requires Valid(t)
    ensures Valid(SeedFlights(t, fs, now))
    decreases |fs|
  {
    if fs != [] {
      UpsertIsInsert(t, fs[0], AdminUser(""), now);
      SeedFlightsValid(UpsertFlight(t, fs[0], now), fs[1..], now);
    }
  }

  /** The script keeps the database well formed. */
  lemma SeedAllValid(t: Tables, adminId: Id, userId: Id, now: Time)
    requires Valid(t)
    ensures Valid(SeedAll(t, adminId, userId, now))
  {
    UpsertIsInsert(t, Flights()[0], AdminUser(adminId), now);
    UpsertIsInsert(UpsertUser(t, AdminUser(adminId)), Flights()[0], PlainUser(userId), now);
    SeedFlightsValid(Accounts(t, adminId, userId), Flights(), now);
  }

  /** The keys of a list of flights. */
  function FlightKeys(fs: seq<Flight>): (keys: set<Id>)
    ensures forall i | 0 <= i < |fs| :: FlightId(fs[i]) in keys
    ensures forall k | k in keys :: exists i :: 0 <= i < |fs| && FlightId(fs[i]) == k
  {
    if fs == [] then {}
    else
      var rest := FlightKeys(fs[1..]);
      assert forall i | 1 <= i < |fs| :: fs[i] == fs[1..][i - 1];
      assert forall k | k in rest :: exists i :: 1 <= i < |fs| && FlightId(fs[i]) == k by {
        forall k | k in rest
          ensures exists i :: 1 <= i < |fs| && FlightId(fs[i]) == k
        {
          var i :| 0 <= i < |fs[1..]| && FlightId(fs[1..][i]) == k;
          assert FlightId(fs[i + 1]) == k;
        }
      }
      {FlightId(fs[0])} + rest
  }

  /** `fs` lists a flight with the key of `fs[j]` before position `j`. */
  predicate KeyedEarlier(fs: seq<Flight>, j: int)
    requires 0 <= j < |fs|
  {
    exists i :: 0 <= i < j && FlightId(fs[i]) == FlightId(fs[j])
  }

  /** The flight upserts write the flights table only, and keep every row already there. */
  lemma {:induction false} SeedFlightsFrame(t: Tables, fs: seq<Flight>, now: Time)
    ensures var r := SeedFlights(t, fs, now);
            && t.resources.Keys <= r.resources.Keys
            && (forall k | k in t.resources :: r.resources[k] == t.resources[k])
            && r.(resources := t.resources) == t
    decreases |fs|
  {
    if fs != [] {
      SeedFlightsFrame(UpsertFlight(t, fs[0], now), fs[1..], now);
    }
  }

  /** The flight upserts add one key per flight, and no other. */
  lemma {:induction false} SeedFlightsKeys(t: Tables, fs: seq<Flight>, now: Time)
    ensures SeedFlights(t, fs, now).resources.Keys == t.resources.Keys + FlightKeys(fs)
    decreases |fs|
  {
    if fs != [] {
      SeedFlightsKeys(UpsertFlight(t, fs[0], now), fs[1..], now);
    }
  }

  /** A key the flight upserts add holds the row of the first flight listed under it. */
  lemma {:induction false} SeedFlightsFirst(t: Tables, fs: seq<Flight>, now: Time, j: nat)
    requires j < |fs| && FlightId(fs[j]) !in t.resources && !KeyedEarlier(fs, j)
    ensures FlightId(fs[j]) in SeedFlights(t, fs, now).resources
    ensures SeedFlights(t, fs, now).resources[FlightId(fs[j])] == RowOf(fs[j], now)
    decreases |fs|
  {
    var t1 := UpsertFlight(t, fs[0], now);
    if j == 0 {
      SeedFlightsFrame(t1, fs[1..], now);
    } else {
      assert FlightId(fs[0]) != FlightId(fs[j]);
      assert fs[1..][j - 1] == fs[j];
      SeedFlightsFirst(t1, fs[1..], now, j - 1);
    }
  }

  /** Flight upserts whose keys are all present change nothing. */
  lemma {:induction false} SeedFlightsPresent(t: Tables, fs: seq<Flight>, now: Time)
    requires forall i | 0 <= i < |fs| :: FlightId(fs[i]) in t.resources
    ensures SeedFlights(t, fs, now) == t
    decreases |fs|
  {
    if fs != [] {
      assert forall i | 0 <= i < |fs[1..]| :: fs[1..][i] == fs[i + 1];
      SeedFlightsPresent(t, fs[1..], now);
    }
  }

  /** Repeating the flight upserts changes nothing. */
  lemma SeedFlightsTwice(t: Tables, fs: seq<Flight>, now: Time, now': Time)
    ensures SeedFlights(SeedFlights(t, fs, now), fs, now') == SeedFlights(t, fs, now)
  {
    SeedFlightsKeys(t, fs, now);
    SeedFlightsPresent(SeedFlights(t, fs, now), fs, now');
  }

  /** Running the script again, at any time and with any generated ids, changes nothing. */
  lemma SeedIdempotent(t: Tables, adminId: Id, userId: Id, now: Time, adminId': Id, userId': Id, now': Time)
    ensures var once := SeedAll(t, adminId, userId, now);
            SeedAll(once, adminId', userId', now') == once
  {
    var t2 := Accounts(t, adminId, userId);
    SeedFlightsFrame(t2, Flights(), now);
    var once := SeedAll(t, adminId, userId, now);
    assert Accounts(once, adminId', userId') == once;
    SeedFlightsTwice(t2, Flights(), now, now');
  }

  /** Among the ten flights only the London and Berlin ones share a number. */
  lemma NumbersDistinct(i: nat, j: nat)
    requires i < j < |Flights()|
    ensures Flights()[i].number == Flights()[j].number <==> i == 0 && j == 8
  {
  }

  /** Every flight but the Berlin one is the first listed under its key. */
  lemma FirstUnderKey(j: nat)
    requires j < |Flights()| && j != 8
    ensures !KeyedEarlier(Flights(), j)
  {
    forall i | 0 <= i < j
      ensures FlightId(Flights()[i]) != FlightId(Flights()[j])
    {
      NumbersDistinct(i, j);
      FlightIdInjective(Flights()[i], Flights()[j]);
    }
  }

  /** The London flight's key is the Berlin flight's key. */
  lemma BerlinSharesLondonKey()
    ensures FlightId(Flights()[8]) == FlightId(Flights()[0])
    ensures Flights()[0].name == "Vol Paris-Londres AF1234" && Flights()[8].name == "Vol Paris-Berlin AF1234"
  {
  }

  /** Seeding an empty database creates one flight row per distinct flight number, nothing else. */
  lemma SeedFromEmptyKeys(adminId: Id, userId: Id, now: Time)
    ensures SeedAll(Empty, adminId, userId, now).resources.Keys == FlightKeys(Flights())
  {
    SeedFlightsKeys(Accounts(Empty, adminId, userId), Flights(), now);
  }

  /** Flights with pairwise different numbers have as many keys as there are flights. */
  lemma {:induction false} DistinctKeysCount(fs: seq<Flight>)
    requires forall i, j | 0 <= i < j < |fs| :: fs[i].number != fs[j].number
    ensures |FlightKeys(fs)| == |fs|
    decreases |fs|
  {
    if fs != [] {
      TailDistinct(fs);
      DistinctKeysCount(fs[1..]);
      HeadKeyNew(fs);
      AddNewKey(FlightId(fs[0]), FlightKeys(fs[1..]));
    }
  }

  lemma TailDistinct(fs: seq<Flight>)
    requires fs != [] && forall i, j | 0 <= i < j < |fs| :: fs[i].number != fs[j].number
    ensures forall j | 0 < j < |fs| :: fs[0].number != fs[j].number
    ensures forall i, j | 0 <= i < j < |fs[1..]| :: fs[1..][i].number != fs[1..][j].number
  {
    forall i, j | 0 <= i < j < |fs[1..]|
      ensures fs[1..][i].number != fs[1..][j].number
    {
      assert fs[1..][i] == fs[i + 1] && fs[1..][j] == fs[j + 1];
    }
  }

  /** Adding a key not in a set grows it by one. */
  lemma AddNewKey(k: Id, keys: set<Id>)
    requires k !in keys
    ensures |{k} + keys| == |keys| + 1
  {
    assert {k} + keys == keys + {k};
  }

  /** The first flight's key is not among the later flights' keys when no later one shares its number. */
  lemma HeadKeyNew(fs: seq<Flight>)
    requires fs != [] && forall j | 0 < j < |fs| :: fs[0].number != fs[j].number
    ensures FlightId(fs[0]) !in FlightKeys(fs[1..])
  {
    if FlightId(fs[0]) in FlightKeys(fs[1..]) {
      var i :| 0 <= i < |fs[1..]| && FlightId(fs[1..][i]) == FlightId(fs[0]);
      FlightIdInjective(fs[1..][i], fs[0]);
      assert false;
    }
  }

  /** The flights without the Berlin entry: nine flights with pairwise different numbers. */
  function WithoutBerlin(): (gs: seq<Flight>)
    ensures |gs| == 9
    ensures forall i | 0 <= i < 9 :: gs[i] == Flights()[if i < 8 then i else i + 1]
  {
    Flights()[..8] + Flights()[9..]
  }

  lemma WithoutBerlinDistinct()
    ensures forall i, j | 0 <= i < j < |WithoutBerlin()| :: WithoutBerlin()[i].number != WithoutBerlin()[j].number
  {
    var gs := WithoutBerlin();
    forall i, j | 0 <= i < j < |gs|
      ensures gs[i].number != gs[j].number
    {
      NumbersDistinct(if i < 8 then i else i + 1, if j < 8 then j else j + 1);
    }
  }

  /** Leaving out the Berlin entry loses no key: London's entry holds the same one. */
  lemma WithoutBerlinKeys()
    ensures FlightKeys(WithoutBerlin()) == FlightKeys(Flights())
  {
    BerlinSharesLondonKey();
    DropRepeatedKey(Flights(), 8, 0);
  }

  /** Dropping an entry whose key an earlier entry holds keeps the set of keys. */
  lemma DropRepeatedKey(fs: seq<Flight>, d: nat, e: nat)
    requires e < d < |fs| && FlightId(fs[d]) == FlightId(fs[e])
    ensures FlightKeys(fs[..d] + fs[d + 1..]) == FlightKeys(fs)
  {
    DroppedKeysKept(fs, d);
    KeysSurviveDrop(fs, d, e);
  }

  /** Every key left after dropping an entry was a key before. */
  lemma DroppedKeysKept(fs: seq<Flight>, d: nat)
    requires d < |fs|
    ensures FlightKeys(fs[..d] + fs[d + 1..]) <= FlightKeys(fs)
  {
    var gs := fs[..d] + fs[d + 1..];
    forall k | k in FlightKeys(gs)
      ensures k in FlightKeys(fs)
    {
      var i :| 0 <= i < |gs| && FlightId(gs[i]) == k;
      if i < d {
        assert gs[i] == fs[i];
      } else {
        DroppedAt(fs, d, i);
      }
    }
  }

  /** Every key survives dropping an entry whose key an earlier entry holds. */
  lemma KeysSurviveDrop(fs: seq<Flight>, d: nat, e: nat)
    requires e < d < |fs| && FlightId(fs[d]) == FlightId(fs[e])
    ensures FlightKeys(fs) <= FlightKeys(fs[..d] + fs[d + 1..])
  {
    forall k | k in FlightKeys(fs)
      ensures k in FlightKeys(fs[..d] + fs[d + 1..])
    {
      var i :| 0 <= i < |fs| && FlightId(fs[i]) == k;
      KeySurvivesDrop(fs, d, e, i);
    }
  }

  /** The key of entry `i` is still held after dropping entry `d`. */
  lemma KeySurvivesDrop(fs: seq<Flight>, d: nat, e: nat, i: nat)
    requires e < d < |fs| && FlightId(fs[d]) == FlightId(fs[e]) && i < |fs|
    ensures FlightId(fs[i]) in FlightKeys(fs[..d] + fs[d + 1..])
  {
    var gs := fs[..d] + fs[d + 1..];
    var j := if i < d then i else if i == d then e else i - 1;
    if i < d {
      assert gs[i] == fs[i];
    } else if i == d {
      assert gs[e] == fs[e];
    } else {
      DroppedAt(fs, d, i - 1);
    }
    assert FlightId(gs[j]) == FlightId(fs[i]);
  }

  /** Past the dropped position, entries move one place forward. */
  lemma DroppedAt(fs: seq<Flight>, d: nat, i: nat)
    requires d <= i && i + 1 < |fs|
    ensures (fs[..d] + fs[d + 1..])[i] == fs[i + 1]
  {
    var tail := fs[d + 1..];
    assert |fs[..d]| == d;
    assert tail[i - d] == fs[i + 1];
  }

  /** Seeding an empty database stores exactly nine flights. */
  lemma SeedStoresNine(adminId: Id, userId: Id, now: Time)
    ensures |SeedAll(Empty, adminId, userId, now).resources| == 9
  {
    SeedFromEmptyKeys(adminId, userId, now);
    WithoutBerlinDistinct();
    DistinctKeysCount(WithoutBerlin());
    WithoutBerlinKeys();
    var m := SeedAll(Empty, adminId, userId, now).resources;
    assert |m.Keys| == 9;
  }

  /**
    Seeding an empty database stores nine flights, not ten: the London flight holds the key
    `flight_AF1234`, the Berlin flight listed later under the same number is never stored, and
    every other flight is stored as listed.
  */
  lemma SeedFromEmpty(adminId: Id, userId: Id, now: Time, j: nat)
    requires j < |Flights()|
    ensures var r := SeedAll(Empty, adminId, userId, now);
            && FlightId(Flights()[j]) in r.resources
            && r.resources[FlightId(Flights()[j])] == RowOf(Flights()[if j == 8 then 0 else j], now)
  {
    var t2 := Accounts(Empty, adminId, userId);
    var k := if j == 8 then 0 else j;
    FirstUnderKey(k);
    BerlinSharesLondonKey();
    SeedFlightsFirst(t2, Flights(), now, k);
  }

  /** The Berlin flight's row is never stored: no row bears its name. */
  lemma BerlinNeverStored(adminId: Id, userId: Id, now: Time, id: Id)
    requires id in SeedAll(Empty, adminId, userId, now).resources
    ensures SeedAll(Empty, adminId, userId, now).resources[id].name != "Vol Paris-Berlin AF1234"
  {
    var k := StoredFlight(adminId, userId, now, id);
    NameNotBerlin(k);
  }

  /** Every stored row is the row of a listed flight other than the Berlin one. */
  lemma StoredFlight(adminId: Id, userId: Id, now: Time, id: Id) returns (k: nat)
    requires id in SeedAll(Empty, adminId, userId, now).resources
    ensures k < |Flights()| && k != 8
    ensures SeedAll(Empty, adminId, userId, now).resources[id] == RowOf(Flights()[k], now)
  {
    var j := StoredKey(adminId, userId, now, id);
    SeedFromEmpty(adminId, userId, now, j);
    k := if j == 8 then 0 else j;
  }

  /** Every stored key is the key of a listed flight. */
  lemma StoredKey(adminId: Id, userId: Id, now: Time, id: Id) returns (j: nat)
    requires id in SeedAll(Empty, adminId, userId, now).resources
    ensures j < |Flights()| && FlightId(Flights()[j]) == id
  {
    SeedFromEmptyKeys(adminId, userId, now);
    j :| 0 <= j < |Flights()| && FlightId(Flights()[j]) == id;
  }

  /** Only the Berlin flight bears its name. */
  lemma NameNotBerlin(k: nat)
    requires k < |Flights()| && k != 8
    ensures Flights()[k].name != "Vol Paris-Berlin AF1234"
  {
  }

  /** Seeding an empty database creates the two accounts with their roles. */
  lemma SeedAccounts(adminId: Id, userId: Id, now: Time)
    ensures var r := SeedAll(Empty, adminId, userId, now);
            && r.users.Keys == {AdminClerkId, UserClerkId}
            && r.users[AdminClerkId] == AdminUser(adminId) && r.users[AdminClerkId].role == "ADMIN"
            && r.users[UserClerkId] == PlainUser(userId) && r.users[UserClerkId].role == "USER"
  {
    SeedFlightsFrame(Accounts(Empty, adminId, userId), Flights(), now);
  }

  /** Every seed flight starts with no more free seats than seats, and none negative. */
  lemma SeedSlotsWithinCapacity()
    ensures forall i | 0 <= i < |Flights()| :: 0 <= Flights()[i].availableSlots <= Flights()[i].maxSlots
  {
  }

  /** The flight upserts against the database, one row at a time. */
  method UpsertFlights(db: Db, fs: seq<Flight>, now: Time)
    requires db.Valid()
    modifies db
    ensures db.Snapshot() == SeedFlights(old(db.Snapshot()), fs, now)
    ensures db.Valid()
  {
    ghost var start := db.Snapshot();
    for i := 0 to |fs|
      invariant db.Valid()
      invariant SeedFlights(db.Snapshot(), fs[i..], now) == SeedFlights(start, fs, now)
    {
      assert fs[i..][1..] == fs[i + 1..];
      UpsertIsInsert(db.Snapshot(), fs[i], AdminUser(""), now);
      var row := RowOf(fs[i], now);
      if row.id !in db.resources {
        db.InsertResource(row);
      }
    }
    assert fs[|fs|..] == [];
  }

  /** The script against the database: two upserts of accounts, then one upsert per flight. */
  method SeedDatabase(db: Db, adminId: Id, userId: Id, now: Time)
    requires db.Valid()
    modifies db
    ensures db.Snapshot() == SeedAll(old(db.Snapshot()), adminId, userId, now)
    ensures db.Valid()
  {
    UpsertIsInsert(db.Snapshot(), Flights()[0], AdminUser(adminId), now);
    var created := db.InsertUser(AdminUser(adminId));
    UpsertIsInsert(db.Snapshot(), Flights()[0], PlainUser(userId), now);
    created := db.InsertUser(PlainUser(userId));
    UpsertFlights(db, Flights(), now);
  }
}
