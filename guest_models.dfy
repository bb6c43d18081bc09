/** The front-desk records: guest registrations, rooms and the singleton
    settings row, with the behaviour the model classes add to saving them. */
module GuestModels {
  import opened Base
  import opened Text
  import opened Sequences

  /** `GuestRegistration.status` as the views write it. The declared choices
      list PENDING, PRINTED and CHECKED_IN; the views also write CHECKED_OUT. */
  datatype GuestStatus = Pending | Printed | CheckedIn | CheckedOut

  /** `Room.status` as the views write it. The declared choices list
      AVAILABLE, OCCUPIED and MAINTENANCE; the views also write DIRTY. */
  datatype RoomStatus = Available | Occupied | Dirty | Maintenance

  /** A calendar date, used where the views compare years, months and days. */
  datatype Date = Date(year: int, month: int, day: int)

  /** One stored line of a guest's folio (`additional_requests`). */
  datatype Request = Request(item: string, price: real)

  /** A guest registration. Stay dates are day numbers; `createdAt` is in
      seconds; money is exact. `stayDuration` is the `stay_duration` text the
      calendar expects; the table declares no such column, so no view stores
      one and every registration keeps the empty text. */
  datatype Guest = Guest(
    id: nat,
    createdAt: int,
    status: GuestStatus,
    source: string,
    bookingId: string,
    securityDeposit: real,
    lastName: string,
    firstName: string,
    address: string,
    phone: string,
    email: string,
    birthDate: Option<Date>,
    gender: string,
    nights: int,
    stayDuration: string,
    roomNumber: string,
    roomRate: real,
    requests: seq<Request>,
    totalAmount: real,
    checkIn: Option<int>,
    checkOut: Option<int>,
    notes: string)

  /** A room; `number` is its primary key. */
  datatype Room = Room(number: string, floor: string, price: int, capacity: int, status: RoomStatus)

  function GuestId(g: Guest): int {
    g.id
  }

  /** A registration as the public form creates it: the given fields, no room,
      no dates, one night, a deposit of 1000 and the column defaults for the
      rest (status PENDING, an empty booking id, rate 0, no requests, total 0). */
  function NewRegistration(id: nat, createdAt: int, source: string, lastName: string,
                           firstName: string, address: string, phone: string, email: string,
                           birthDate: Option<Date>, gender: string, notes: string): (g: Guest)
    ensures g.status == Pending && g.bookingId == "" && g.roomNumber == ""
    ensures g.checkIn == None && g.checkOut == None && g.nights == 1
    ensures g.requests == [] && g.totalAmount == 0.0 && g.roomRate == 0.0
  {
    Guest(id, createdAt, Pending, source, "", 1000.0, lastName, firstName, address, phone, email,
          birthDate, gender, 1, "", "", 0.0, [], 0.0, None, None, notes)
  }

  predicate IsLowerHex(c: char) {
    '0' <= c <= '9' || 'a' <= c <= 'f'
  }

  predicate IsUpperHex(c: char) {
    '0' <= c <= '9' || 'A' <= c <= 'F'
  }

  /** The text of a random uuid4 starts with eight lower-case hex digits. */
  predicate IsUuidText(t: string) {
    |t| >= 8 && forall i :: 0 <= i < 8 ==> IsLowerHex(t[i])
  }

  /** The booking id `GuestRegistration.save` stores: an existing one is kept;
      an empty one becomes the first eight characters of a fresh uuid4,
      uppercased. */
  function BookingIdFor(current: string, uuidText: string): (r: string)
    requires IsUuidText(uuidText)
    ensures current != "" ==> r == current
    ensures current == "" ==> |r| == 8 && forall i :: 0 <= i < 8 ==> IsUpperHex(r[i])
  {
    if current != "" then current else Upper(uuidText[..8])
  }

  /** Every room whose number is `number` gets status `st`; nothing else changes
      (`Room.objects.filter(number=...).update(status=...)`). */
  function WithStatus(rooms: seq<Room>, number: string, st: RoomStatus): (r: seq<Room>)
    ensures |r| == |rooms|
    ensures forall i :: 0 <= i < |rooms| ==>
              r[i] == if rooms[i].number == number then rooms[i].(status := st) else rooms[i]
  {
    seq(|rooms|, i requires 0 <= i < |rooms| =>
      if rooms[i].number == number then rooms[i].(status := st) else rooms[i])
  }

  /** No two rooms share a number: the number is the room table's primary key. */
  ghost predicate NumbersDistinct(rooms: seq<Room>) {
    forall i, j :: 0 <= i < j < |rooms| ==> rooms[i].number != rooms[j].number
  }

  /** A change that keeps every room's number keeps the numbers distinct. */
  lemma SameNumbersDistinct(a: seq<Room>, b: seq<Room>)
    requires NumbersDistinct(a) && |b| == |a|
    requires forall i :: 0 <= i < |a| ==> b[i].number == a[i].number
    ensures NumbersDistinct(b)
  {
  }

  /** The registration and room tables. Registrations are kept in creation
      order; their ids increase along the table, and no two rooms share a
      number. */
  class GuestTable {
    var guests: seq<Guest>
    var rooms: seq<Room>
    var nextId: nat

    ghost predicate Valid()
      reads this
    {
      && (forall i :: 0 <= i < |guests| ==> guests[i].id < nextId)
      && Increasing(guests, GuestId)
      && NumbersDistinct(rooms)
    }

    constructor (rooms: seq<Room>)
      requires NumbersDistinct(rooms)
      ensures Valid() && this.guests == [] && this.rooms == rooms
    {
      this.guests := [];
      this.rooms := rooms;
      this.nextId := 0;
    }

    /** `objects.create(...)` of a registration: it gets a fresh id, then
        `save` fills in its booking id, and it is appended to the table. */
    method Create(g: Guest, uuidText: string) returns (saved: Guest)
      requires Valid() && IsUuidText(uuidText)
      modifies this
      ensures Valid()
      ensures saved == g.(id := old(nextId), bookingId := BookingIdFor(g.bookingId, uuidText))
      ensures guests == old(guests) + [saved] && rooms == old(rooms)
    {
      saved := g.(id := nextId, bookingId := BookingIdFor(g.bookingId, uuidText));
      guests := guests + [saved];
      nextId := nextId + 1;
    }

    /** `save()` of a registration loaded from row `at`: its booking id is
        filled in if empty and the row is overwritten. */
    method Save(at: nat, g: Guest, uuidText: string) returns (saved: Guest)
      requires Valid() && IsUuidText(uuidText)
      requires at < |guests| && guests[at].id == g.id
      modifies this
      ensures Valid()
      ensures saved == g.(bookingId := BookingIdFor(g.bookingId, uuidText))
      ensures guests == old(guests)[at := saved] && rooms == old(rooms) && nextId == old(nextId)
    {
      saved := g.(bookingId := BookingIdFor(g.bookingId, uuidText));
      guests := guests[at := saved];
    }

    /** `Room.objects.filter(number=number).update(status=st)`. */
    method SetRoomStatus(number: string, st: RoomStatus)
      requires Valid()
      modifies this
      ensures Valid()
      ensures rooms == WithStatus(old(rooms), number, st)
      ensures guests == old(guests) && nextId == old(nextId)
    {
      SameNumbersDistinct(rooms, WithStatus(rooms, number, st));
      rooms := WithStatus(rooms, number, st);
    }
  }

  /** The settings row: PIN, maintenance switch and optional form access code. */
  datatype Settings = Settings(pk: int, pinCode: string, maintenanceMode: bool, formAccessCode: string)

  /** The column defaults: PIN "12345", maintenance off, no access code. */
  const DefaultSettings := Settings(1, "12345", false, "")

  /** The table after `get_or_create(pk=1)`. */
  function AfterLoad(rows: map<int, Settings>): (r: map<int, Settings>)
    ensures 1 in r && r.Keys == rows.Keys + {1}
    ensures 1 in rows ==> r == rows
    ensures 1 !in rows ==> r[1] == DefaultSettings
  {
    if 1 in rows then rows else rows[1 := DefaultSettings]
  }

  /** Loading twice adds nothing to loading once, and a table holding at most
      the pk-1 row holds exactly that row afterwards. */
  lemma AfterLoadIsSingleton(rows: map<int, Settings>)
    ensures AfterLoad(AfterLoad(rows)) == AfterLoad(rows)
    ensures rows.Keys <= {1} ==> AfterLoad(rows).Keys == {1}
  {
  }

  /** The settings table: a singleton kept under primary key 1. */
  class SettingsTable {
    var rows: map<int, Settings>

    ghost predicate Valid()
      reads this
    {
      rows.Keys <= {1} && forall k :: k in rows ==> rows[k].pk == k
    }

    constructor ()
      ensures Valid() && rows == map[]
    {
      rows := map[];
    }

    /** `AdminSettings.save`: whatever pk the object had, it is stored as row 1. */
    method Save(s: Settings) returns (saved: Settings)
      requires Valid()
      modifies this
      ensures Valid()
      ensures saved == s.(pk := 1) && rows == old(rows)[1 := saved] && rows.Keys == {1}
    {
      saved := s.(pk := 1);
      rows := rows[1 := saved];
    }

    /** `AdminSettings.load`: row 1, created with the defaults only if absent. */
    method Load() returns (s: Settings)
      requires Valid()
      modifies this
      ensures Valid()
      ensures rows == AfterLoad(old(rows)) && s == rows[1]
      ensures 1 in old(rows) ==> s == old(rows)[1]
    {
      rows := AfterLoad(rows);
      s := rows[1];
    }
  }
}
