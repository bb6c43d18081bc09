/** Booking and room reconciliation: the overlap test of the conflict warning,
    the room status written after a guest is saved, the room rack's repair of
    stale statuses, housekeeping, and the calendar's occupancy rule. Stay
    dates are day numbers; a stay [check-in, check-out) is half-open. */
module Booking {
  import opened Base
  import opened Text
  import opened Sequences
  import opened GuestModels

  // ---------------------------------------------------------------- overlap

  /** The conflict query's date test: the other stay starts before this one
      ends and ends after this one starts. */
  predicate Overlaps(ci: int, co: int, otherCi: int, otherCo: int) {
    otherCi < co && otherCo > ci
  }

  /** Night `d` belongs to the stay [ci, co). */
  predicate Occupies(ci: int, co: int, d: int) {
    ci <= d < co
  }

  /** Two non-empty stays overlap exactly when some night belongs to both. */
  lemma OverlapIffSharedNight(ci: int, co: int, otherCi: int, otherCo: int)
    requires ci < co && otherCi < otherCo
    ensures Overlaps(ci, co, otherCi, otherCo) <==>
            exists d :: Occupies(ci, co, d) && Occupies(otherCi, otherCo, d)
  {
    if Overlaps(ci, co, otherCi, otherCo) {
      var d := if ci < otherCi then otherCi else ci;
      assert Occupies(ci, co, d) && Occupies(otherCi, otherCo, d);
    }
  }

  /** A stay that ends on the day another starts does not overlap it, in
      either order; and overlap is symmetric. */
  lemma TouchingStaysDoNotOverlap(a: int, b: int, c: int, d: int)
    ensures !Overlaps(a, b, b, c) && !Overlaps(b, c, a, b)
    ensures Overlaps(a, b, c, d) <==> Overlaps(c, d, a, b)
  {
  }

  /** Another registration conflicts with the one being edited, whose stay is
      [ci, co): same room, an overlapping stay with both dates set, not the
      same registration and not checked out. */
  predicate ConflictsWith(g: Guest, ci: int, co: int, other: Guest) {
    && other.roomNumber == g.roomNumber
    && other.checkIn.Some? && other.checkOut.Some?
    && Overlaps(ci, co, other.checkIn.value, other.checkOut.value)
    && other.id != g.id
    && other.status != CheckedOut
  }

  /** The registrations the editor warns about. The editor first fills in a
      missing check-in with today and a missing check-out with tomorrow; a
      registration without a room is never checked. */
  function Conflicts(guests: seq<Guest>, g: Guest, today: int): seq<Guest> {
    if g.roomNumber == "" then []
    else
      var ci := g.checkIn.GetOr(today);
      var co := g.checkOut.GetOr(today + 1);
      Filter(guests, (o: Guest) => ConflictsWith(g, ci, co, o))
  }

  /** A stored registration is warned about exactly when it conflicts. */
  lemma ConflictsIff(guests: seq<Guest>, g: Guest, today: int, o: Guest)
    requires o in guests
    ensures o in Conflicts(guests, g, today) <==>
            g.roomNumber != "" && ConflictsWith(g, g.checkIn.GetOr(today), g.checkOut.GetOr(today + 1), o)
  {
    if g.roomNumber != "" {
      var ci := g.checkIn.GetOr(today);
      var co := g.checkOut.GetOr(today + 1);
      var keep := (x: Guest) => ConflictsWith(g, ci, co, x);
      var r := Filter(guests, keep);
      FilterMembers(guests, keep);
      if o in r {
        var i :| 0 <= i < |r| && r[i] == o;
        assert keep(r[i]);
      }
      var j :| 0 <= j < |guests| && guests[j] == o;
      if keep(o) {
        assert keep(guests[j]);
      }
    }
  }

  // ------------------------------------------------------------ room picker

  /** Room `number` is held today by a registration other than `selfId`: a
      PRINTED one whose stay covers today. */
  predicate HeldToday(guests: seq<Guest>, selfId: nat, number: string, today: int) {
    exists j :: 0 <= j < |guests| && guests[j].id != selfId && guests[j].status == Printed
                && InStayToday(guests[j].checkIn, guests[j].checkOut, today) && guests[j].roomNumber == number
  }

  /** The editor page offers a room that is not under MAINTENANCE and is not
      held today by another registration, unless it is the posted room `own`. */
  function Offered(guests: seq<Guest>, selfId: nat, own: string, today: int): Room -> bool {
    (r: Room) => r.status != Maintenance && !(HeldToday(guests, selfId, r.number, today) && r.number != own)
  }

  /** The rooms the editor page lists in its room picker. */
  function PickerRooms(rooms: seq<Room>, guests: seq<Guest>, selfId: nat, own: string, today: int): seq<Room> {
    Filter(rooms, Offered(guests, selfId, own, today))
  }

  /** The picker lists no room exactly when every room is under MAINTENANCE
      or held today by another registration and not the posted room. */
  lemma PickerEmptyIff(rooms: seq<Room>, guests: seq<Guest>, selfId: nat, own: string, today: int)
    ensures PickerRooms(rooms, guests, selfId, own, today) == [] <==>
              forall i :: 0 <= i < |rooms| ==>
                rooms[i].status == Maintenance || (HeldToday(guests, selfId, rooms[i].number, today) && rooms[i].number != own)
  {
    var keep := Offered(guests, selfId, own, today);
    if forall i :: 0 <= i < |rooms| ==> !keep(rooms[i]) {
      FilterAllOrNothing(rooms, keep);
    }
    if exists i :: 0 <= i < |rooms| && keep(rooms[i]) {
      var i :| 0 <= i < |rooms| && keep(rooms[i]);
      FilterMembers(rooms, keep);
      assert rooms[i] in PickerRooms(rooms, guests, selfId, own, today);
    }
  }

  // ------------------------------------------------------- status after save

  /** The status a save gives: PRINTED on "save_and_print", CHECKED_OUT on
      "checkout", and otherwise the current one. */
  function NextStatus(current: GuestStatus, action: Option<string>): (s: GuestStatus)
    ensures action == Some("save_and_print") ==> s == Printed
    ensures action == Some("checkout") ==> s == CheckedOut
    ensures action != Some("save_and_print") && action != Some("checkout") ==> s == current
  {
    if action == Some("save_and_print") then Printed
    else if action == Some("checkout") then CheckedOut
    else current
  }

  /** A status only changes to PRINTED or CHECKED_OUT, and each only on its action. */
  lemma NextStatusChanges(current: GuestStatus, action: Option<string>)
    ensures NextStatus(current, action) != current ==>
              || (NextStatus(current, action) == Printed && action == Some("save_and_print"))
              || (NextStatus(current, action) == CheckedOut && action == Some("checkout"))
  {
  }

  /** Today lies in the stay: both dates set and check-in <= today < check-out. */
  predicate InStayToday(checkIn: Option<int>, checkOut: Option<int>, today: int) {
    checkIn.Some? && checkOut.Some? && checkIn.value <= today < checkOut.value
  }

  /** The room table after a registration that was on `oldRoom` is saved as
      `g`: a room it left becomes AVAILABLE; then its room becomes OCCUPIED
      (PRINTED and staying today), AVAILABLE (PRINTED otherwise) or DIRTY
      (CHECKED_OUT), and is left alone for any other status. */
  function RoomsAfterSave(rooms: seq<Room>, oldRoom: string, g: Guest, today: int): seq<Room> {
    var freed := if oldRoom != "" && oldRoom != g.roomNumber then WithStatus(rooms, oldRoom, Available) else rooms;
    if g.roomNumber == "" then freed
    else if g.status == Printed then
      WithStatus(freed, g.roomNumber, if InStayToday(g.checkIn, g.checkOut, today) then Occupied else Available)
    else if g.status == CheckedOut then WithStatus(freed, g.roomNumber, Dirty)
    else freed
  }

  /** Room by room, what a save does: the guest's room takes the status its
      registration calls for, a room the guest left is AVAILABLE, and every
      other room, and every field but the status, is unchanged. */
  lemma RoomAfterSave(rooms: seq<Room>, oldRoom: string, g: Guest, today: int, i: nat)
    requires i < |rooms|
    ensures |RoomsAfterSave(rooms, oldRoom, g, today)| == |rooms|
    ensures RoomsAfterSave(rooms, oldRoom, g, today)[i] == rooms[i].(status := RoomsAfterSave(rooms, oldRoom, g, today)[i].status)
    ensures var n := rooms[i].number;
            var st := RoomsAfterSave(rooms, oldRoom, g, today)[i].status;
            && (n == g.roomNumber && n != "" && g.status == Printed ==>
                  (st == Occupied <==> InStayToday(g.checkIn, g.checkOut, today)) && (st == Occupied || st == Available))
            && (n == g.roomNumber && n != "" && g.status == CheckedOut ==> st == Dirty)
            && (n == g.roomNumber && (g.status == Pending || g.status == CheckedIn) ==> st == rooms[i].status)
            && (n == oldRoom && n != "" && n != g.roomNumber ==> st == Available)
            && (n != oldRoom && n != g.roomNumber ==> st == rooms[i].status)
  {
  }

  // --------------------------------------------------------------- room rack

  /** The registrations the rack shows: PENDING or PRINTED. */
  predicate IsActive(g: Guest) {
    g.status == Pending || g.status == Printed
  }

  /** `{g.room_number: g for g in active if g.room_number}`: each room is
      mapped to the last registration on it. */
  function RoomMap(active: seq<Guest>): (m: map<string, Guest>)
    ensures forall k :: k in m ==> k != "" && m[k] in active && m[k].roomNumber == k
    ensures forall i :: 0 <= i < |active| && active[i].roomNumber != "" ==> active[i].roomNumber in m
  {
    if active == [] then map[]
    else
      var m := RoomMap(active[..|active| - 1]);
      var g := active[|active| - 1];
      if g.roomNumber != "" then m[g.roomNumber := g] else m
  }

  /** A registration that no later one shares a room with is the one the map keeps. */
  lemma {:induction false} RoomMapKeepsLast(active: seq<Guest>, i: nat)
    requires i < |active| && active[i].roomNumber != ""
    requires forall j :: i < j < |active| ==> active[j].roomNumber != active[i].roomNumber
    ensures RoomMap(active)[active[i].roomNumber] == active[i]
  {
    var init := active[..|active| - 1];
    if i < |active| - 1 {
      RoomMapKeepsLast(init, i);
    }
  }

  /** The room status after the rack's repair for a PRINTED registration: an
      AVAILABLE room whose guest stays today becomes OCCUPIED, an OCCUPIED room
      whose guest does not becomes AVAILABLE, and nothing else changes. A
      missing date counts as not staying. */
  function RepairedStatus(db: RoomStatus, g: Guest, today: int): RoomStatus {
    if InStayToday(g.checkIn, g.checkOut, today) then
      if db == Available then Occupied else db
    else
      if db == Occupied then Available else db
  }

  /** The repair as written: `check_in <= today and check_out > today` on a
      missing date raises TypeError (None here); otherwise it agrees with
      `RepairedStatus`. */
  function RepairedStatusAsWritten(db: RoomStatus, g: Guest, today: int): (r: Option<RoomStatus>)
    ensures g.checkIn.Some? && g.checkOut.Some? ==> r == Some(RepairedStatus(db, g, today))
  {
    if g.checkIn.None? then None
    else if g.checkIn.value <= today then
      if g.checkOut.None? then None
      else if g.checkOut.value > today then (if db == Available then Some(Occupied) else Some(db))
      else (if db == Occupied then Some(Available) else Some(db))
    else (if db == Occupied then Some(Available) else Some(db))
  }

  /** A PRINTED registration saved without a check-in date makes the rack
      raise, while the repaired rule leaves its room as it is. */
  lemma RackFailsWithoutCheckIn(g: Guest, db: RoomStatus, today: int)
    requires g.status == Printed && g.checkIn == None
    ensures RepairedStatusAsWritten(db, g, today) == None
    ensures RepairedStatus(db, g, today) == if db == Occupied then Available else db
  {
  }

  /** The repair never touches a DIRTY or MAINTENANCE room, repairing twice is
      repairing once, and afterwards an AVAILABLE or OCCUPIED room is OCCUPIED
      exactly when its guest stays today. */
  lemma RepairProperties(db: RoomStatus, g: Guest, today: int)
    ensures db == Dirty || db == Maintenance ==> RepairedStatus(db, g, today) == db
    ensures RepairedStatus(RepairedStatus(db, g, today), g, today) == RepairedStatus(db, g, today)
    ensures db == Available || db == Occupied ==>
              (RepairedStatus(db, g, today) == Occupied <==> InStayToday(g.checkIn, g.checkOut, today))
  {
  }

  /** What the rack shows for a room. */
  datatype Shown = ShownStatus(status: RoomStatus) | ShownPending

  /** One cell of the rack. */
  datatype RackCell = RackCell(number: string, price: int, shown: Shown, guestName: string,
                               guestId: Option<nat>, isAdvance: bool)

  /** The cell for a room whose status before the repair was `room.status`:
      no registration shows that status, a PENDING one shows PENDING, a
      PRINTED one shows OCCUPIED; the booking is in advance when its check-in
      is after today. */
  function CellFor(room: Room, guest: Option<Guest>, today: int): (c: RackCell)
    ensures c.number == room.number
    ensures guest.None? ==> c.shown == ShownStatus(room.status) && !c.isAdvance && c.guestId == None
    ensures guest.Some? && guest.value.status == Pending ==> c.shown == ShownPending
    ensures guest.Some? && guest.value.status == Printed ==> c.shown == ShownStatus(Occupied)
    ensures c.isAdvance <==> guest.Some? && guest.value.checkIn.Some? && guest.value.checkIn.value > today
  {
    match guest
    case None => RackCell(room.number, room.price, ShownStatus(room.status), "", None, false)
    case Some(g) =>
      var shown := if g.status == Pending then ShownPending
                   else if g.status == Printed then ShownStatus(Occupied)
                   else ShownStatus(room.status);
      RackCell(room.number, room.price, shown, g.firstName + " " + g.lastName, Some(g.id),
               g.checkIn.Some? && g.checkIn.value > today)
  }

  /** A room after the rack visited it: repaired when its registration is PRINTED. */
  function RackRoom(room: Room, guest: Option<Guest>, today: int): (r: Room)
    ensures r == room.(status := r.status)
    ensures guest.None? || guest.value.status != Printed ==> r == room
  {
    if guest.Some? && guest.value.status == Printed then room.(status := RepairedStatus(room.status, guest.value, today))
    else room
  }

  /** A room after the rack visited it, as written: None where the repair's
      comparison meets a missing date and raises. */
  function RackRoomAsWritten(room: Room, guest: Option<Guest>, today: int): (r: Option<Room>)
    ensures r.Some? ==> r.value == RackRoom(room, guest, today)
    ensures r.None? <==> guest.Some? && guest.value.status == Printed &&
                         RepairedStatusAsWritten(room.status, guest.value, today).None?
  {
    if guest.Some? && guest.value.status == Printed then
      match RepairedStatusAsWritten(room.status, guest.value, today)
      case None => None
      case Some(st) => Some(room.(status := st))
    else Some(room)
  }

  /** The index of the first room where the rack raises, or the number of
      rooms when it finishes. */
  function RackCrashAt(rooms: seq<Room>, m: map<string, Guest>, today: int): (k: nat)
    ensures k <= |rooms|
    ensures forall j :: 0 <= j < k ==> RackRoomAsWritten(rooms[j], GuestOn(m, rooms[j].number), today).Some?
    ensures k < |rooms| ==> RackRoomAsWritten(rooms[k], GuestOn(m, rooms[k].number), today).None?
    decreases |rooms|
  {
    if rooms == [] then 0
    else if RackRoomAsWritten(rooms[0], GuestOn(m, rooms[0].number), today).None? then 0
    else
      var k := RackCrashAt(rooms[1..], m, today);
      assert forall j :: 1 <= j < k + 1 ==> rooms[j] == rooms[1..][j - 1];
      1 + k
  }

  /** `RackCrashAt` is the first index whose visit raises. */
  lemma RackCrashAtIsFirst(rooms: seq<Room>, m: map<string, Guest>, today: int, i: nat)
    requires i <= |rooms|
    requires forall j :: 0 <= j < i ==> RackRoomAsWritten(rooms[j], GuestOn(m, rooms[j].number), today).Some?
    requires i < |rooms| ==> RackRoomAsWritten(rooms[i], GuestOn(m, rooms[i].number), today).None?
    ensures RackCrashAt(rooms, m, today) == i
  {
  }

  /** The rack's progress after `i` visits without a raise: the first `i`
      rooms have their cells and are saved repaired, the rest are as they were. */
  ghost predicate RackedUpTo(before: seq<Room>, rooms: seq<Room>, cells: seq<RackCell>,
                             m: map<string, Guest>, today: int, i: nat)
  {
    && i <= |before| && |rooms| == |before| && |cells| == i
    && (forall j :: 0 <= j < i ==>
          && RackRoomAsWritten(before[j], GuestOn(m, before[j].number), today).Some?
          && cells[j] == CellFor(before[j], GuestOn(m, before[j].number), today)
          && rooms[j] == RackRoom(before[j], GuestOn(m, before[j].number), today))
    && (forall j :: i <= j < |before| ==> rooms[j] == before[j])
  }

  /** One visit that does not raise extends the rack's progress by one room. */
  lemma RackStep(before: seq<Room>, rooms: seq<Room>, cells: seq<RackCell>,
                 m: map<string, Guest>, today: int, i: nat, r: Room)
    requires RackedUpTo(before, rooms, cells, m, today, i) && i < |before|
    requires RackRoomAsWritten(before[i], GuestOn(m, before[i].number), today) == Some(r)
    ensures RackedUpTo(before, rooms[i := r], cells + [CellFor(before[i], GuestOn(m, before[i].number), today)],
                       m, today, i + 1)
  {
  }

  /** The rack's progress, spelled out room by room. */
  lemma RackedUpToRooms(before: seq<Room>, rooms: seq<Room>, cells: seq<RackCell>,
                        m: map<string, Guest>, today: int, k: nat)
    requires RackedUpTo(before, rooms, cells, m, today, k)
    ensures |rooms| == |before| && |cells| == k
    ensures forall i :: 0 <= i < k ==>
              && cells[i] == CellFor(before[i], GuestOn(m, before[i].number), today)
              && rooms[i] == RackRoom(before[i], GuestOn(m, before[i].number), today)
    ensures forall i :: k <= i < |rooms| ==> rooms[i] == before[i]
  {
  }

  /** The rack finishes whenever every PRINTED registration on the map has
      both its dates. */
  lemma RackFinishesWithDates(rooms: seq<Room>, m: map<string, Guest>, today: int)
    requires forall n :: n in m && m[n].status == Printed ==> m[n].checkIn.Some? && m[n].checkOut.Some?
    ensures RackCrashAt(rooms, m, today) == |rooms|
  {
    var k := RackCrashAt(rooms, m, today);
    if k < |rooms| {
      assert false;
    }
  }

  /** The map's registration for a room number, if any. */
  function GuestOn(m: map<string, Guest>, number: string): Option<Guest> {
    if number in m then Some(m[number]) else None
  }

  // ---------------------------------------------------------- housekeeping

  /** Marking room `id` clean: a DIRTY room with that number becomes
      AVAILABLE; any other status, an unknown number or no number at all
      leaves the table as it was. */
  function Cleaned(rooms: seq<Room>, id: Option<string>): (r: seq<Room>)
    ensures |r| == |rooms|
  {
    match id
    case None => rooms
    case Some(n) =>
      seq(|rooms|, i requires 0 <= i < |rooms| =>
        if rooms[i].number == n && rooms[i].status == Dirty then rooms[i].(status := Available) else rooms[i])
  }

  /** Only a DIRTY room changes, only to AVAILABLE, and only the named one;
      marking it clean again changes nothing. */
  lemma CleanedProperties(rooms: seq<Room>, id: Option<string>, i: nat)
    requires i < |rooms|
    ensures Cleaned(rooms, id)[i] != rooms[i] ==>
              && id == Some(rooms[i].number) && rooms[i].status == Dirty
              && Cleaned(rooms, id)[i] == rooms[i].(status := Available)
    ensures id == Some(rooms[i].number) && rooms[i].status == Dirty ==> Cleaned(rooms, id)[i].status == Available
    ensures Cleaned(Cleaned(rooms, id), id) == Cleaned(rooms, id)
  {
  }

  /** A number no room has, or a room that is not DIRTY, leaves every room unchanged. */
  lemma CleanedUnchanged(rooms: seq<Room>, n: string)
    requires forall i :: 0 <= i < |rooms| && rooms[i].number == n ==> rooms[i].status != Dirty
    ensures Cleaned(rooms, Some(n)) == rooms
  {
  }

  // --------------------------------------------------------------- calendar

  /** The last night the calendar draws: the check-out day itself for a
      nightly stay (its duration text contains "22"); otherwise the check-in
      day of a same-day stay, else the day before check-out. */
  function EndNight(ci: int, co: int, stay: string): int {
    if HasSubstring(stay, "22") then co
    else if ci == co then ci
    else co - 1
  }

  /** A registration on the calendar of the month [first, last]: both dates
      set, the stay touches the month, not checked out, with a room. */
  predicate OnCalendar(g: Guest, first: int, last: int) {
    && g.checkIn.Some? && g.checkOut.Some?
    && g.checkIn.value <= last && g.checkOut.value >= first
    && g.status != CheckedOut
    && g.roomNumber != ""
  }

  /** A calendar bar: the registration, its first day and its last night. */
  datatype CalendarBooking = CalendarBooking(guest: Guest, start: int, endNight: int)

  function BookingOf(g: Guest): CalendarBooking
    requires g.checkIn.Some? && g.checkOut.Some?
  {
    CalendarBooking(g, g.checkIn.value, EndNight(g.checkIn.value, g.checkOut.value, g.stayDuration))
  }

  /** The bars of the month, in table order. */
  function CalendarBookings(guests: seq<Guest>, first: int, last: int): seq<CalendarBooking>
  {
    if guests == [] then []
    else
      var init := CalendarBookings(guests[..|guests| - 1], first, last);
      var g := guests[|guests| - 1];
      if OnCalendar(g, first, last) then init + [BookingOf(g)] else init
  }

  /** The month's bars are the bars of exactly the registrations on its calendar. */
  lemma {:induction false} CalendarBookingsContents(guests: seq<Guest>, first: int, last: int)
    ensures forall b :: b in CalendarBookings(guests, first, last) ==>
              b.guest in guests && OnCalendar(b.guest, first, last) && b == BookingOf(b.guest)
    ensures forall i :: 0 <= i < |guests| && OnCalendar(guests[i], first, last) ==>
              BookingOf(guests[i]) in CalendarBookings(guests, first, last)
  {
    if guests != [] {
      var init := guests[..|guests| - 1];
      CalendarBookingsContents(init, first, last);
      forall i | 0 <= i < |guests| && OnCalendar(guests[i], first, last)
        ensures BookingOf(guests[i]) in CalendarBookings(guests, first, last)
      {
        if i < |init| {
          assert init[i] == guests[i];
        }
      }
    }
  }

  function RoomOf(b: CalendarBooking): string {
    b.guest.roomNumber
  }

  /** Bars grouped by room, each list in the order of `bs`. */
  function BookingMap(bs: seq<CalendarBooking>): (m: map<string, seq<CalendarBooking>>)
  {
    if bs == [] then map[]
    else
      var m := BookingMap(bs[..|bs| - 1]);
      var b := bs[|bs| - 1];
      var k := RoomOf(b);
      m[k := (if k in m then m[k] else []) + [b]]
  }

  /** A room has a list exactly when one of the bars is on it. */
  lemma {:induction false} BookingMapKeys(bs: seq<CalendarBooking>, k: string)
    ensures k in BookingMap(bs) <==> exists i :: 0 <= i < |bs| && RoomOf(bs[i]) == k
  {
    if bs != [] {
      var init := bs[..|bs| - 1];
      BookingMapKeys(init, k);
      if k in BookingMap(init) {
        var i :| 0 <= i < |init| && RoomOf(init[i]) == k;
        assert RoomOf(bs[i]) == k;
      }
      if exists i :: 0 <= i < |bs| && RoomOf(bs[i]) == k {
        var i :| 0 <= i < |bs| && RoomOf(bs[i]) == k;
        if i < |init| {
          assert RoomOf(init[i]) == k;
        }
      }
    }
  }

  /** A room's list holds exactly its bars, in order. */
  lemma {:induction false} BookingMapLists(bs: seq<CalendarBooking>, k: string)
    requires k in BookingMap(bs)
    ensures BookingMap(bs)[k] == Filter(bs, (b: CalendarBooking) => RoomOf(b) == k)
    ensures forall i :: 0 <= i < |bs| && RoomOf(bs[i]) == k ==> bs[i] in BookingMap(bs)[k]
    ensures forall b :: b in BookingMap(bs)[k] ==> b in bs && RoomOf(b) == k
  {
    var keep := (b: CalendarBooking) => RoomOf(b) == k;
    BookingMapListsFiltered(bs, k);
    FilterMembers(bs, keep);
  }

  lemma {:induction false} BookingMapListsFiltered(bs: seq<CalendarBooking>, k: string)
    requires k in BookingMap(bs)
    ensures BookingMap(bs)[k] == Filter(bs, (b: CalendarBooking) => RoomOf(b) == k)
  {
    var keep := (b: CalendarBooking) => RoomOf(b) == k;
    var init := bs[..|bs| - 1];
    var b := bs[|bs| - 1];
    if k in BookingMap(init) {
      BookingMapListsFiltered(init, k);
    } else {
      BookingMapKeys(init, k);
      FilterAllOrNothing(init, keep);
      assert forall i :: 0 <= i < |init| ==> !keep(init[i]);
    }
  }

  /** The calendar's occupied-today test for one bar. */
  predicate CoversToday(b: CalendarBooking, today: int) {
    b.start <= today <= b.endNight
  }

  /** The room is drawn occupied today: one of its bars covers today. */
  predicate OccupiedToday(bs: seq<CalendarBooking>, number: string, today: int) {
    exists i :: 0 <= i < |bs| && RoomOf(bs[i]) == number && CoversToday(bs[i], today)
  }

  /** For a stay of at least one night without "22" in its duration, the
      calendar's closed range [check-in, last night] is the half-open stay;
      a nightly stay also covers its check-out day. */
  lemma EndNightIsHalfOpen(ci: int, co: int, stay: string, today: int)
    requires ci < co
    ensures !HasSubstring(stay, "22") ==> (ci <= today <= EndNight(ci, co, stay) <==> Occupies(ci, co, today))
    ensures HasSubstring(stay, "22") ==> (ci <= today <= EndNight(ci, co, stay) <==> ci <= today <= co)
  {
  }

  /** The month filter never hides an occupant: a registration whose bar
      covers a day of the month is on that month's calendar. */
  lemma OccupantIsOnCalendar(g: Guest, first: int, last: int, today: int)
    requires g.checkIn.Some? && g.checkOut.Some? && g.status != CheckedOut && g.roomNumber != ""
    requires first <= today <= last && CoversToday(BookingOf(g), today)
    ensures OnCalendar(g, first, last)
  {
  }

  lemma CalendarBookingsStep(guests: seq<Guest>, first: int, last: int, i: nat)
    requires i < |guests|
    ensures CalendarBookings(guests[..i + 1], first, last)
         == CalendarBookings(guests[..i], first, last) +
            (if OnCalendar(guests[i], first, last) then [BookingOf(guests[i])] else [])
  {
    assert guests[..i + 1][..i] == guests[..i];
  }

  lemma BookingMapStep(prior: seq<CalendarBooking>, b: CalendarBooking)
    ensures BookingMap(prior + [b])
         == BookingMap(prior)[RoomOf(b) := (if RoomOf(b) in BookingMap(prior) then BookingMap(prior)[RoomOf(b)] else []) + [b]]
  {
    assert (prior + [b])[..|prior|] == prior;
  }

  /** The first loop of the calendar view: the bars of the month grouped by room. */
  method GroupBookings(guests: seq<Guest>, first: int, last: int)
    returns (bookings: map<string, seq<CalendarBooking>>)
    ensures bookings == BookingMap(CalendarBookings(guests, first, last))
  {
    bookings := map[];
    for i := 0 to |guests|
      invariant bookings == BookingMap(CalendarBookings(guests[..i], first, last))
    {
      CalendarBookingsStep(guests, first, last, i);
      var g := guests[i];
      if OnCalendar(g, first, last) {
        var b := BookingOf(g);
        BookingMapStep(CalendarBookings(guests[..i], first, last), b);
        var k := RoomOf(b);
        var list := if k in bookings then bookings[k] else [];
        bookings := bookings[k := list + [b]];
      } else {
        ghost var prior := CalendarBookings(guests[..i], first, last);
        assert prior + [] == prior;
      }
    }
    assert guests[..|guests|] == guests;
  }

  /** A month with no registration on it has no bars, no room lists and no
      room occupied today. */
  lemma EmptyMonth(guests: seq<Guest>, first: int, last: int)
    requires forall i :: 0 <= i < |guests| ==> !OnCalendar(guests[i], first, last)
    ensures CalendarBookings(guests, first, last) == []
    ensures BookingMap(CalendarBookings(guests, first, last)) == map[]
    ensures forall number, today :: !OccupiedToday(CalendarBookings(guests, first, last), number, today)
  {
    CalendarBookingsContents(guests, first, last);
  }

  /** The calendar view as written: the loop over the month's registrations
      reads `stay_duration` from the first one, an attribute the registration
      table does not declare, so a month with any registration on it raises;
      a month with none renders no bars and no room occupied, as the view
      with the column declared would. */
  method CalendarView(guests: seq<Guest>, rooms: seq<Room>, first: int, last: int, today: int)
    returns (crashed: bool, bookings: map<string, seq<CalendarBooking>>, occupied: seq<bool>)
    ensures crashed <==> exists i :: 0 <= i < |guests| && OnCalendar(guests[i], first, last)
    ensures !crashed ==> bookings == map[] && |occupied| == |rooms|
    ensures !crashed ==> forall i :: 0 <= i < |rooms| ==> !occupied[i]
    ensures !crashed ==> bookings == BookingMap(CalendarBookings(guests, first, last))
    ensures !crashed ==> forall i :: 0 <= i < |rooms| ==>
              (occupied[i] <==> OccupiedToday(CalendarBookings(guests, first, last), rooms[i].number, today))
  {
    crashed := false;
    var i := 0;
    while i < |guests| && !crashed
      invariant 0 <= i <= |guests|
      invariant !crashed ==> forall j :: 0 <= j < i ==> !OnCalendar(guests[j], first, last)
      invariant crashed ==> 0 < i && OnCalendar(guests[i - 1], first, last)
    {
      if OnCalendar(guests[i], first, last) {
        crashed := true;
      }
      i := i + 1;
    }
    bookings := map[];
    occupied := [];
    if !crashed {
      for j := 0 to |rooms|
        invariant |occupied| == j
        invariant forall k :: 0 <= k < j ==> !occupied[k]
      {
        occupied := occupied + [false];
      }
      EmptyMonth(guests, first, last);
    }
  }

  /** The calendar view with a `stay_duration` column declared: the bars of
      the month grouped by room, and for each room whether one of its bars
      covers today. */
  method CalendarViewCorrected(guests: seq<Guest>, rooms: seq<Room>, first: int, last: int, today: int)
    returns (bookings: map<string, seq<CalendarBooking>>, occupied: seq<bool>)
    ensures bookings == BookingMap(CalendarBookings(guests, first, last))
    ensures |occupied| == |rooms|
    ensures forall i :: 0 <= i < |rooms| ==>
              (occupied[i] <==> OccupiedToday(CalendarBookings(guests, first, last), rooms[i].number, today))
  {
    bookings := GroupBookings(guests, first, last);
    ghost var bs := CalendarBookings(guests, first, last);
    occupied := [];
    for j := 0 to |rooms|
      invariant |occupied| == j
      invariant forall i :: 0 <= i < j ==> (occupied[i] <==> OccupiedToday(bs, rooms[i].number, today))
    {
      var found := RoomOccupiedToday(bs, bookings, rooms[j].number, today);
      occupied := occupied + [found];
    }
  }

  /** The inner loop: walk the room's bars until one covers today. */
  method RoomOccupiedToday(ghost bs: seq<CalendarBooking>, bookings: map<string, seq<CalendarBooking>>,
                           number: string, today: int) returns (found: bool)
    requires bookings == BookingMap(bs)
    ensures found <==> OccupiedToday(bs, number, today)
  {
    found := false;
    BookingMapKeys(bs, number);
    if number in bookings {
      var list := bookings[number];
      BookingMapLists(bs, number);
      var k := 0;
      while k < |list| && !found
        invariant 0 <= k <= |list|
        invariant found ==> OccupiedToday(bs, number, today)
        invariant !found ==> forall l :: 0 <= l < k ==> !CoversToday(list[l], today)
      {
        if CoversToday(list[k], today) {
          assert list[k] in bs && RoomOf(list[k]) == number;
          found := true;
        }
        k := k + 1;
      }
      if !found {
        forall i | 0 <= i < |bs| && RoomOf(bs[i]) == number
          ensures !CoversToday(bs[i], today)
        {
          assert bs[i] in list;
        }
      }
    }
  }
}
