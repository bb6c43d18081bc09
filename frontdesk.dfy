/** The front-desk views over the registration, room and settings tables: the
    public registration form, the guest editor, the PIN change, the lazy
    expiry of abandoned registrations, guest search, the room rack and
    housekeeping. Posted forms are maps from field names to text; parsing a
    date is a parameter, and so are today, the current time and the uuid the
    database would draw. */
module FrontDesk {
  import opened Base
  import opened Text
  import opened Numbers
  import opened Sequences
  import opened GuestModels
  import opened Folio
  import opened Booking
  import opened Forms

  function IsMissing(data: map<string, string>): string -> bool {
    (f: string) => !Filled(data, f)
  }

  /** The names among `fields` that were not filled, in their order. */
  function MissingFields(data: map<string, string>, fields: seq<string>): seq<string> {
    Filter(fields, IsMissing(data))
  }

  /** Nothing is missing exactly when every field was filled. */
  lemma NoneMissingIff(data: map<string, string>, fields: seq<string>)
    ensures MissingFields(data, fields) == [] <==> forall i :: 0 <= i < |fields| ==> Filled(data, fields[i])
  {
    if forall i :: 0 <= i < |fields| ==> Filled(data, fields[i]) {
      FilterAllOrNothing(fields, IsMissing(data));
    } else {
      var i :| 0 <= i < |fields| && !Filled(data, fields[i]);
      FilterMembers(fields, IsMissing(data));
      assert IsMissing(data)(fields[i]);
      assert fields[i] in MissingFields(data, fields);
    }
  }

  // ------------------------------------------------------ registration form

  /** The fields the public form requires, in the order they are reported. */
  const SubmitRequired: seq<string> := ["last_name", "first_name", "address", "phone", "birth_date", "gender"]

  /** The answer to a posted registration form. */
  datatype SubmitResponse =
    | Unavailable                                // 503, maintenance mode
    | Spam                                       // 400, the hidden field was filled
    | MissingRequired(fields: seq<string>)       // 400, with the missing names
    | SubmitCrash                                // raises while the record is created
    | Registered(guest: Guest)                   // the record to create

  /** What the public form does with a posted form, with the stray
      `car_plate` argument dropped: a form without an `email` field stores
      None in a NOT NULL column and raises, and so does a birth date that does
      not parse. */
  function SubmitOutcome(maintenance: bool, data: map<string, string>, parseDate: string -> Option<Date>,
                         id: nat, createdAt: int): SubmitResponse
  {
    if maintenance then Unavailable
    else if Filled(data, "nickname") then Spam
    else
      var missing := MissingFields(data, SubmitRequired);
      if missing != [] then MissingRequired(missing)
      else if "email" !in data then SubmitCrash
      else match parseDate(GetOr(data, "birth_date", ""))
        case None => SubmitCrash
        case Some(birth) =>
          Registered(NewRegistration(id, createdAt, GetOr(data, "source", "WALKIN"),
                                     Upper(GetOr(data, "last_name", "")), Upper(GetOr(data, "first_name", "")), Upper(GetOr(data, "address", "")),
                                     GetOr(data, "phone", ""), GetOr(data, "email", ""), Some(birth),
                                     GetOr(data, "gender", ""), GetOr(data, "notes", "")))
  }

  /** A record is created exactly when the system is open, the hidden field is
      empty, every required field is filled, an email field is posted and the
      birth date parses; it is
      PENDING, with the names and the address uppercased. */
  lemma SubmitRegistersIff(maintenance: bool, data: map<string, string>, parseDate: string -> Option<Date>,
                           id: nat, createdAt: int)
    ensures var r := SubmitOutcome(maintenance, data, parseDate, id, createdAt);
            r.Registered? <==>
              && !maintenance && !Filled(data, "nickname")
              && (forall i :: 0 <= i < |SubmitRequired| ==> Filled(data, SubmitRequired[i]))
              && "email" in data
              && parseDate(GetOr(data, "birth_date", "")).Some?
    ensures var r := SubmitOutcome(maintenance, data, parseDate, id, createdAt);
            r.Registered? ==>
              && r.guest.status == Pending && r.guest.roomNumber == "" && r.guest.nights == 1
              && r.guest.firstName == Upper(GetOr(data, "first_name", "")) && r.guest.lastName == Upper(GetOr(data, "last_name", ""))
              && r.guest.address == Upper(GetOr(data, "address", ""))
    ensures var r := SubmitOutcome(maintenance, data, parseDate, id, createdAt);
            r.MissingRequired? ==> r.fields != [] && forall i :: 0 <= i < |r.fields| ==> !Filled(data, r.fields[i])
  {
    NoneMissingIff(data, SubmitRequired);
    FilterMembers(SubmitRequired, IsMissing(data));
    var r := SubmitOutcome(maintenance, data, parseDate, id, createdAt);
    if r.MissingRequired? {
      forall i | 0 <= i < |r.fields| ensures !Filled(data, r.fields[i]) {
        assert IsMissing(data)(r.fields[i]);
      }
    }
  }

  /** The form as written: `create` is handed a `car_plate` argument, a field
      the registration table does not declare, so every form that passes the
      three checks raises before anything is stored. */
  function SubmitOutcomeAsWritten(maintenance: bool, data: map<string, string>): SubmitResponse
  {
    if maintenance then Unavailable
    else if Filled(data, "nickname") then Spam
    else
      var missing := MissingFields(data, SubmitRequired);
      if missing != [] then MissingRequired(missing)
      else SubmitCrash
  }

  /** As written, no form registers anyone: the forms the intended view
      accepts all raise, and on every other form the two agree. */
  lemma SubmitCrashesAsWritten(maintenance: bool, data: map<string, string>, parseDate: string -> Option<Date>,
                               id: nat, createdAt: int)
    ensures !SubmitOutcomeAsWritten(maintenance, data).Registered?
    ensures SubmitOutcome(maintenance, data, parseDate, id, createdAt).Registered? ==>
              SubmitOutcomeAsWritten(maintenance, data) == SubmitCrash
    ensures !SubmitOutcome(maintenance, data, parseDate, id, createdAt).Registered? ==>
              SubmitOutcomeAsWritten(maintenance, data) == SubmitOutcome(maintenance, data, parseDate, id, createdAt)
  {
  }

  /** The form the registration test posts: the intended view registers it,
      the view as written raises. */
  lemma SubmitTestFormCrashes(parseDate: string -> Option<Date>, id: nat, createdAt: int)
    requires parseDate("1992-02-02").Some?
    ensures var data := map["first_name" := "Jane", "last_name" := "Doe", "address" := "456 Oak St",
                            "phone" := "9876543210", "email" := "jane@example.com",
                            "birth_date" := "1992-02-02", "gender" := "Female", "source" := "WALKIN"];
            && SubmitOutcome(false, data, parseDate, id, createdAt).Registered?
            && SubmitOutcomeAsWritten(false, data) == SubmitCrash
  {
    var data := map["first_name" := "Jane", "last_name" := "Doe", "address" := "456 Oak St",
                    "phone" := "9876543210", "email" := "jane@example.com",
                    "birth_date" := "1992-02-02", "gender" := "Female", "source" := "WALKIN"];
    SubmitRegistersIff(false, data, parseDate, id, createdAt);
    assert !Filled(data, "nickname");
    forall i | 0 <= i < |SubmitRequired| ensures Filled(data, SubmitRequired[i]) {
      assert SubmitRequired[i] in data;
    }
  }

  /** The public form's view as written: load the settings and answer; a form
      that passes the checks raises, so no registration is ever added. */
  method SubmitGuestForm(st: SettingsTable, data: map<string, string>)
    returns (response: SubmitResponse)
    requires st.Valid()
    modifies st
    ensures st.Valid() && st.rows == AfterLoad(old(st.rows))
    ensures response == SubmitOutcomeAsWritten(AfterLoad(old(st.rows))[1].maintenanceMode, data)
    ensures !response.Registered?
  {
    var settings := st.Load();
    response := SubmitOutcomeAsWritten(settings.maintenanceMode, data);
  }

  /** The public form's view with the stray argument dropped: load the
      settings, decide, and create the record only when it is accepted. */
  method SubmitGuestFormCorrected(t: GuestTable, st: SettingsTable, data: map<string, string>,
                                  parseDate: string -> Option<Date>, createdAt: int, uuidText: string)
    returns (response: SubmitResponse)
    requires t.Valid() && st.Valid() && IsUuidText(uuidText)
    modifies t, st
    ensures t.Valid() && st.Valid() && st.rows == AfterLoad(old(st.rows))
    ensures response == SubmitOutcome(AfterLoad(old(st.rows))[1].maintenanceMode, data, parseDate, old(t.nextId), createdAt)
    ensures response.Registered? ==>
              t.guests == old(t.guests) + [response.guest.(bookingId := BookingIdFor(response.guest.bookingId, uuidText))]
    ensures !response.Registered? ==> t.guests == old(t.guests)
    ensures t.rooms == old(t.rooms)
  {
    var settings := st.Load();
    response := SubmitOutcome(settings.maintenanceMode, data, parseDate, t.nextId, createdAt);
    if response.Registered? {
      var saved := t.Create(response.guest, uuidText);
    }
  }

  // ------------------------------------------------------------ age gate

  /** `today.year - birth.year - ((today.month, today.day) < (birth.month, birth.day))`. */
  function Age(today: Date, birth: Date): int {
    today.year - birth.year - (if today.month < birth.month || (today.month == birth.month && today.day < birth.day) then 1 else 0)
  }

  /** Date `a` comes before date `b` (year, then month, then day). */
  predicate Before(a: Date, b: Date) {
    a.year < b.year || (a.year == b.year && (a.month < b.month || (a.month == b.month && a.day < b.day)))
  }

  /** A person is at least `n` years old exactly when today is not before
      their `n`-th birthday. */
  lemma AgeIff(today: Date, birth: Date, n: int)
    ensures Age(today, birth) >= n <==> !Before(today, Date(birth.year + n, birth.month, birth.day))
  {
  }

  // ---------------------------------------------------------- guest editor

  /** The fields the guest editor requires. */
  const EditRequired: seq<string> := ["first_name", "last_name", "address", "phone", "birth_date", "gender"]

  datatype EditError = EditMissing(fields: seq<string>) | InvalidBirthDate | Underage(age: int)

  /** The result of posting the guest editor: an unhandled exception, the form
      shown again with an error, or the record to save. */
  datatype EditOutcome = EditCrash | EditRejected(error: EditError) | EditAccepted(guest: Guest)

  /** The check-in date posted: a blank or unparsable date clears it. */
  function PostedCheckIn(data: map<string, string>, parseDay: string -> Option<int>): Option<int> {
    if Filled(data, "check_in_date") then parseDay(GetOr(data, "check_in_date", "")) else None
  }

  /** The outcome of the editor's form checks: the error shown, or the birth date. */
  datatype Checked = CheckFailed(error: EditError) | CheckPassed(birth: Date)

  /** The editor's form checks, in order: the required fields, the birth
      date's format, then an age of at least 18. */
  function EditChecks(data: map<string, string>, parseDate: string -> Option<Date>, today: Date): Checked {
    var missing := MissingFields(data, EditRequired);
    if missing != [] then CheckFailed(EditMissing(missing))
    else match parseDate(GetOr(data, "birth_date", ""))
      case None => CheckFailed(InvalidBirthDate)
      case Some(birth) =>
        if Age(today, birth) < 18 then CheckFailed(Underage(Age(today, birth))) else CheckPassed(birth)
  }

  /** The checks pass exactly when every required field is filled, the birth
      date parses and the guest is at least 18; the missing-field error names
      only empty fields, and the age error carries an age under 18. */
  lemma EditChecksIff(data: map<string, string>, parseDate: string -> Option<Date>, today: Date)
    ensures EditChecks(data, parseDate, today).CheckPassed? <==>
              && (forall i :: 0 <= i < |EditRequired| ==> Filled(data, EditRequired[i]))
              && parseDate(GetOr(data, "birth_date", "")).Some?
              && Age(today, parseDate(GetOr(data, "birth_date", "")).value) >= 18
    ensures EditChecks(data, parseDate, today).CheckPassed? ==>
              EditChecks(data, parseDate, today).birth == parseDate(GetOr(data, "birth_date", "")).value
    ensures var c := EditChecks(data, parseDate, today);
            c.CheckFailed? && c.error.EditMissing? ==>
              c.error.fields != [] && forall i :: 0 <= i < |c.error.fields| ==> !Filled(data, c.error.fields[i])
    ensures var c := EditChecks(data, parseDate, today);
            c.CheckFailed? && c.error.Underage? ==> c.error.age < 18
  {
    NoneMissingIff(data, EditRequired);
    FilterMembers(EditRequired, IsMissing(data));
    var c := EditChecks(data, parseDate, today);
    if c.CheckFailed? && c.error.EditMissing? {
      forall i | 0 <= i < |c.error.fields| ensures !Filled(data, c.error.fields[i]) {
        assert IsMissing(data)(c.error.fields[i]);
      }
    }
  }

  /** The record the editor saves: the posted fields (names and address
      uppercased), the amounts, nights, request lines and total it computed,
      the posted check-in, the derived check-out and the new status. */
  function EditedRecord(g: Guest, data: map<string, string>, parseDay: string -> Option<int>, birth: Date,
                        rate: real, deposit: real, nights: int, reqs: seq<Request>, total: real): Guest
  {
    var ci := PostedCheckIn(data, parseDay);
    g.(
      source := GetOr(data, "source", "WALKIN"),
      firstName := Upper(GetOr(data, "first_name", "")),
      lastName := Upper(GetOr(data, "last_name", "")),
      address := Upper(GetOr(data, "address", "")),
      phone := GetOr(data, "phone", ""),
      email := GetOr(data, "email", ""),
      birthDate := Some(birth),
      gender := GetOr(data, "gender", ""),
      nights := nights,
      roomNumber := GetOr(data, "room_number", ""),
      roomRate := rate,
      securityDeposit := deposit,
      requests := reqs,
      totalAmount := total,
      checkIn := ci,
      checkOut := CheckOutAfter(ci, Get(data, "nights"), g.checkOut),
      notes := GetOr(data, "notes", ""),
      status := NextStatus(g.status, Get(data, "action")))
  }

  /** What the guest editor does with a posted form for registration `g`:
      the rate, deposit and nights multiplier are read first (an unparsable
      value raises); then the form checks run; then storing the nights column
      raises for empty nights. */
  function EditGuest(g: Guest, data: map<string, string>, items: seq<string>, prices: seq<string>,
                     parseDate: string -> Option<Date>, parseDay: string -> Option<int>, today: Date): (r: EditOutcome)
    ensures r.EditAccepted? ==> r.guest.id == g.id
  {
    var rate := Amount(GetOr(data, "room_rate", "0"));
    var deposit := Amount(GetOr(data, "security_deposit", "0"));
    var nights := Get(data, "nights");
    var reqs := StoredRequests(items, prices);
    if rate.None? || deposit.None? then EditCrash
    else match FolioTotalAsWritten(rate.value, nights, reqs)
      case None => EditCrash
      case Some(total) =>
        match EditChecks(data, parseDate, today)
        case CheckFailed(e) => EditRejected(e)
        case CheckPassed(birth) =>
          match StoredNights(nights)
          case None => EditCrash
          case Some(n) => EditAccepted(EditedRecord(g, data, parseDay, birth, rate.value, deposit.value, n, reqs, total))
  }

  /** A saved edit keeps the registration's id, stores the posted rate, the
      non-blank request lines, the total the editor computes from them (which
      `generate_guest_pdf` recomputes unless the nights read as 0), the
      posted check-in, the check-out derived from it and the new status, and
      passed the form checks. */
  lemma EditAcceptedFolio(g: Guest, data: map<string, string>, items: seq<string>, prices: seq<string>,
                          parseDate: string -> Option<Date>, parseDay: string -> Option<int>, today: Date)
    requires EditGuest(g, data, items, prices, parseDate, parseDay, today).EditAccepted?
    ensures var h := EditGuest(g, data, items, prices, parseDate, parseDay, today).guest;
            && h.id == g.id
            && Amount(GetOr(data, "room_rate", "0")) == Some(h.roomRate)
            && h.requests == StoredRequests(items, prices)
            && FolioTotalAsWritten(h.roomRate, Get(data, "nights"), h.requests) == Some(h.totalAmount)
            && (NightsFactorAsWritten(Get(data, "nights")) != Some(0) ==> h.totalAmount == PdfTotal(h))
            && h.checkIn == PostedCheckIn(data, parseDay)
            && h.checkOut == CheckOutAfter(h.checkIn, Get(data, "nights"), g.checkOut)
            && h.status == NextStatus(g.status, Get(data, "action"))
            && (forall i :: 0 <= i < |EditRequired| ==> Filled(data, EditRequired[i]))
            && h.birthDate.Some? && Age(today, h.birthDate.value) >= 18
  {
    var h := EditGuest(g, data, items, prices, parseDate, parseDay, today).guest;
    EditChecksIff(data, parseDate, today);
    var rate := Amount(GetOr(data, "room_rate", "0"));
    var nights := Get(data, "nights");
    if NightsFactorAsWritten(nights) != Some(0) {
      FolioTotalAgreesAwayFromZero(rate.value, nights, h.requests);
      FolioRoundTrip(h, rate.value, nights, h.requests);
    }
  }

  /** A form that fails its checks is shown again with that check's error
      whenever the amounts and the nights parse; nothing is saved. */
  lemma EditRejectedIff(g: Guest, data: map<string, string>, items: seq<string>, prices: seq<string>,
                        parseDate: string -> Option<Date>, parseDay: string -> Option<int>, today: Date)
    ensures var r := EditGuest(g, data, items, prices, parseDate, parseDay, today);
            r.EditRejected? <==>
              && Amount(GetOr(data, "room_rate", "0")).Some?
              && Amount(GetOr(data, "security_deposit", "0")).Some?
              && NightsFactorAsWritten(Get(data, "nights")).Some?
              && EditChecks(data, parseDate, today).CheckFailed?
    ensures var r := EditGuest(g, data, items, prices, parseDate, parseDay, today);
            r.EditRejected? ==> r.error == EditChecks(data, parseDate, today).error
  {
  }

  /** The guest editor as written: a form that fails its checks falls
      through to the editor page, whose room picker reads `price_6hr`, a field
      rooms do not declare, so the page raises unless the picker lists no
      room. `rooms` and `guests` are the tables, `todayDay` is today. */
  function EditGuestAsWritten(g: Guest, data: map<string, string>, items: seq<string>, prices: seq<string>,
                              parseDate: string -> Option<Date>, parseDay: string -> Option<int>, today: Date,
                              rooms: seq<Room>, guests: seq<Guest>, todayDay: int): EditOutcome
  {
    var r := EditGuest(g, data, items, prices, parseDate, parseDay, today);
    if r.EditRejected? && PickerRooms(rooms, guests, g.id, GetOr(data, "room_number", ""), todayDay) != []
    then EditCrash
    else r
  }

  /** As written, a form is shown again with its error only when the picker
      is empty: every room under MAINTENANCE or held today by another
      registration and not the posted room. Otherwise a rejected form raises,
      and every other outcome is the intended one. */
  lemma RejectedFormCrashesAsWritten(g: Guest, data: map<string, string>, items: seq<string>, prices: seq<string>,
                                     parseDate: string -> Option<Date>, parseDay: string -> Option<int>, today: Date,
                                     rooms: seq<Room>, guests: seq<Guest>, todayDay: int)
    ensures var intended := EditGuest(g, data, items, prices, parseDate, parseDay, today);
            var r := EditGuestAsWritten(g, data, items, prices, parseDate, parseDay, today, rooms, guests, todayDay);
            && (r.EditRejected? <==>
                  && intended.EditRejected?
                  && forall i :: 0 <= i < |rooms| ==>
                       || rooms[i].status == Maintenance
                       || (HeldToday(guests, g.id, rooms[i].number, todayDay) && rooms[i].number != GetOr(data, "room_number", "")))
            && (intended.EditRejected? && !r.EditRejected? ==> r == EditCrash)
            && (!intended.EditRejected? ==> r == intended)
  {
    PickerEmptyIff(rooms, guests, g.id, GetOr(data, "room_number", ""), todayDay);
  }

  /** One free room is enough: with a room that is not under MAINTENANCE and
      that no other registration holds today, a rejected form raises. */
  lemma FreeRoomCrashesRejectedForm(g: Guest, data: map<string, string>, items: seq<string>, prices: seq<string>,
                                    parseDate: string -> Option<Date>, parseDay: string -> Option<int>, today: Date,
                                    rooms: seq<Room>, guests: seq<Guest>, todayDay: int, k: nat)
    requires EditGuest(g, data, items, prices, parseDate, parseDay, today).EditRejected?
    requires k < |rooms| && rooms[k].status != Maintenance && !HeldToday(guests, g.id, rooms[k].number, todayDay)
    ensures EditGuestAsWritten(g, data, items, prices, parseDate, parseDay, today, rooms, guests, todayDay) == EditCrash
  {
    RejectedFormCrashesAsWritten(g, data, items, prices, parseDate, parseDay, today, rooms, guests, todayDay);
  }

  /** The room updates after a save of `saved`, which was on `oldRoom`. */
  method UpdateRooms(t: GuestTable, oldRoom: string, saved: Guest, todayDay: int)
    requires t.Valid()
    modifies t
    ensures t.Valid()
    ensures t.rooms == RoomsAfterSave(old(t.rooms), oldRoom, saved, todayDay)
    ensures t.guests == old(t.guests) && t.nextId == old(t.nextId)
  {
    var newRoom := saved.roomNumber;
    if oldRoom != "" && oldRoom != newRoom {
      t.SetRoomStatus(oldRoom, Available);
    }
    if newRoom != "" {
      if saved.status == Printed {
        if InStayToday(saved.checkIn, saved.checkOut, todayDay) {
          t.SetRoomStatus(newRoom, Occupied);
        } else {
          t.SetRoomStatus(newRoom, Available);
        }
      } else if saved.status == CheckedOut {
        t.SetRoomStatus(newRoom, Dirty);
      }
    }
  }

  /** The guest editor's view on row `at`: decide, and on success save the
      record and update the rooms it left and moved to. The outcome is the
      one as written, so a rejected form raises unless the picker is empty. */
  method UpdateGuest(t: GuestTable, at: nat, data: map<string, string>, items: seq<string>, prices: seq<string>,
                     parseDate: string -> Option<Date>, parseDay: string -> Option<int>,
                     today: Date, todayDay: int, uuidText: string)
    returns (outcome: EditOutcome)
    requires t.Valid() && IsUuidText(uuidText) && at < |t.guests|
    modifies t
    ensures t.Valid()
    ensures outcome == EditGuestAsWritten(old(t.guests[at]), data, items, prices, parseDate, parseDay, today,
                                          old(t.rooms), old(t.guests), todayDay)
    ensures outcome.EditAccepted? ==>
              var saved := outcome.guest.(bookingId := BookingIdFor(outcome.guest.bookingId, uuidText));
              && t.guests == old(t.guests)[at := saved]
              && t.rooms == RoomsAfterSave(old(t.rooms), old(t.guests[at].roomNumber), saved, todayDay)
    ensures !outcome.EditAccepted? ==> t.guests == old(t.guests) && t.rooms == old(t.rooms)
  {
    var g := t.guests[at];
    outcome := EditGuestAsWritten(g, data, items, prices, parseDate, parseDay, today, t.rooms, t.guests, todayDay);
    if outcome.EditAccepted? {
      var saved := t.Save(at, outcome.guest, uuidText);
      UpdateRooms(t, g.roomNumber, saved, todayDay);
    }
  }

  // ------------------------------------------------------------ PIN change

  datatype PinOutcome = IncorrectOldPin | PinsDiffer | PinTooShort | PinCrash | PinChanged(settings: Settings)

  /** The security form: the old PIN must match, the new PIN and its
      confirmation must agree, and the new PIN must have at least 4
      characters (with neither posted, `len(None)` raises). */
  function ChangePin(s: Settings, oldPin: Option<string>, newPin: Option<string>, confirm: Option<string>): PinOutcome {
    if oldPin != Some(s.pinCode) then IncorrectOldPin
    else if newPin != confirm then PinsDiffer
    else if newPin.None? then PinCrash
    else if |newPin.value| < 4 then PinTooShort
    else PinChanged(s.(pinCode := newPin.value))
  }

  /** The PIN changes exactly when all three checks pass, and only the PIN changes. */
  lemma ChangePinIff(s: Settings, oldPin: Option<string>, newPin: Option<string>, confirm: Option<string>)
    ensures ChangePin(s, oldPin, newPin, confirm).PinChanged? <==>
              oldPin == Some(s.pinCode) && newPin == confirm && newPin.Some? && |newPin.value| >= 4
    ensures ChangePin(s, oldPin, newPin, confirm).PinChanged? ==>
              ChangePin(s, oldPin, newPin, confirm).settings == s.(pinCode := newPin.value)
  {
  }

  /** The settings page's security action: load the row, check, and save the new PIN. */
  method UpdateSecurity(st: SettingsTable, oldPin: Option<string>, newPin: Option<string>, confirm: Option<string>)
    returns (outcome: PinOutcome)
    requires st.Valid()
    modifies st
    ensures st.Valid()
    ensures outcome == ChangePin(AfterLoad(old(st.rows))[1], oldPin, newPin, confirm)
    ensures outcome.PinChanged? ==> st.rows == AfterLoad(old(st.rows))[1 := outcome.settings]
    ensures !outcome.PinChanged? ==> st.rows == AfterLoad(old(st.rows))
  {
    var s := st.Load();
    outcome := ChangePin(s, oldPin, newPin, confirm);
    if outcome.PinChanged? {
      var saved := st.Save(outcome.settings);
    }
  }

  // ---------------------------------------------------------------- expiry

  /** A PENDING registration created more than an hour (3600 s) before `now`. */
  predicate IsExpired(g: Guest, now: int) {
    g.status == Pending && g.createdAt < now - 3600
  }

  function NotExpired(now: int): Guest -> bool {
    (g: Guest) => !IsExpired(g, now)
  }

  /** The table after the expired registrations are deleted. */
  function Unexpired(guests: seq<Guest>, now: int): seq<Guest> {
    Filter(guests, NotExpired(now))
  }

  /** No expired registration remains, every other one is kept and keeps its
      place, and cleaning up again deletes nothing more. */
  lemma UnexpiredProperties(guests: seq<Guest>, now: int)
    ensures forall i :: 0 <= i < |Unexpired(guests, now)| ==> !IsExpired(Unexpired(guests, now)[i], now)
    ensures forall i :: 0 <= i < |guests| && !IsExpired(guests[i], now) ==> guests[i] in Unexpired(guests, now)
    ensures Unexpired(Unexpired(guests, now), now) == Unexpired(guests, now)
  {
    var r := Unexpired(guests, now);
    FilterMembers(guests, NotExpired(now));
    forall i | 0 <= i < |r| ensures !IsExpired(r[i], now) {
      assert NotExpired(now)(r[i]);
    }
    forall i | 0 <= i < |guests| && !IsExpired(guests[i], now) ensures guests[i] in r {
      assert NotExpired(now)(guests[i]);
    }
    FilterAllOrNothing(r, NotExpired(now));
  }

  /** Expiry keeps the placement of the rest: deleting from a table deletes
      from each part of it. */
  lemma UnexpiredAppend(a: seq<Guest>, b: seq<Guest>, now: int)
    ensures Unexpired(a + b, now) == Unexpired(a, now) + Unexpired(b, now)
  {
    FilterAppend(a, b, NotExpired(now));
  }

  /** `cleanup_expired_registrations`: delete the expired registrations. */
  method CleanupExpired(t: GuestTable, now: int)
    requires t.Valid()
    modifies t
    ensures t.Valid()
    ensures t.guests == Unexpired(old(t.guests), now)
    ensures t.rooms == old(t.rooms) && t.nextId == old(t.nextId)
  {
    FilterIncreasing(t.guests, NotExpired(now), GuestId);
    FilterMembers(t.guests, NotExpired(now));
    t.guests := Unexpired(t.guests, now);
  }

  // ---------------------------------------------------------------- search

  /** The case-insensitive containment test of the search, on ASCII letters. */
  predicate ContainsFolded(field: string, q: string) {
    HasSubstring(Upper(field), Upper(q))
  }

  /** First name, last name or phone contains the query. */
  function MatchesQuery(q: string): Guest -> bool {
    (g: Guest) => ContainsFolded(g.firstName, q) || ContainsFolded(g.lastName, q) || ContainsFolded(g.phone, q)
  }

  /** The key two results are duplicates under. */
  function SearchKey(g: Guest): (string, string, string) {
    (g.firstName, g.lastName, g.phone)
  }

  /** The matches newest first, at most 10 of them. */
  function RecentMatches(guests: seq<Guest>, q: string): seq<Guest> {
    Take(Reverse(Filter(guests, MatchesQuery(q))), 10)
  }

  /** What the search shows: nothing for a query shorter than 2 characters
      after stripping; otherwise the first of each name-and-phone among the
      10 newest matches. */
  function SearchResults(guests: seq<Guest>, query: string): seq<Guest> {
    var q := Strip(query);
    if |q| < 2 then [] else FirstByKey(RecentMatches(guests, q), SearchKey)
  }

  /** A short query shows nothing; otherwise no two results share a name and
      phone, and every name and phone among the 10 newest matches is shown. */
  lemma SearchDistinct(guests: seq<Guest>, query: string)
    ensures |Strip(query)| < 2 ==> SearchResults(guests, query) == []
    ensures DistinctKeys(SearchResults(guests, query), SearchKey)
    ensures |Strip(query)| >= 2 ==>
              KeysOf(SearchResults(guests, query), SearchKey) == KeysOf(RecentMatches(guests, Strip(query)), SearchKey)
  {
    FirstByKeyDistinct(RecentMatches(guests, Strip(query)), SearchKey);
  }

  /** At most 10 registrations are shown. */
  lemma SearchBounded(guests: seq<Guest>, query: string)
    ensures |SearchResults(guests, query)| <= 10
  {
    FirstByKeyLength(RecentMatches(guests, Strip(query)), SearchKey);
  }

  /** Every registration shown is in the table and matches the stripped query. */
  lemma SearchShowsMatches(guests: seq<Guest>, query: string, i: nat)
    requires i < |SearchResults(guests, query)|
    ensures SearchResults(guests, query)[i] in guests
    ensures MatchesQuery(Strip(query))(SearchResults(guests, query)[i])
  {
    var q := Strip(query);
    var matches := Filter(guests, MatchesQuery(q));
    var recent := RecentMatches(guests, q);
    var x := SearchResults(guests, query)[i];
    assert x in recent;
    InPrefix(recent, Reverse(matches), x);
    InReverse(matches, x);
    FilterMembers(guests, MatchesQuery(q));
  }

  /** The search view's loop: keep a seen set and the first of each key. */
  method SearchGuests(guests: seq<Guest>, query: string) returns (unique: seq<Guest>)
    ensures unique == SearchResults(guests, query)
  {
    var q := Strip(query);
    if |q| < 2 {
      return [];
    }
    var recent := RecentMatches(guests, q);
    unique := UniqueByKey(recent, SearchKey);
  }

  // -------------------------------------------------------- rack and rooms

  /** The room rack's loop: each room's cell is drawn from its status before
      the repair, then a room with a PRINTED registration is repaired and
      saved. The loop raises at the first room whose PRINTED registration
      lacks a date the repair compares; the rooms before it stay saved. */
  method RoomRack(t: GuestTable, today: int) returns (crashed: bool, cells: seq<RackCell>)
    requires t.Valid()
    modifies t
    ensures t.Valid()
    ensures t.guests == old(t.guests) && t.nextId == old(t.nextId)
    ensures |t.rooms| == |old(t.rooms)|
    ensures var m := RoomMap(Filter(old(t.guests), IsActive));
            var k := RackCrashAt(old(t.rooms), m, today);
            && (crashed <==> k < |old(t.rooms)|)
            && |cells| == k
            && (forall i :: 0 <= i < k ==>
                  && cells[i] == CellFor(old(t.rooms)[i], GuestOn(m, old(t.rooms)[i].number), today)
                  && t.rooms[i] == RackRoom(old(t.rooms)[i], GuestOn(m, old(t.rooms)[i].number), today))
            && (forall i :: k <= i < |t.rooms| ==> t.rooms[i] == old(t.rooms)[i])
  {
    var m := RoomMap(Filter(t.guests, IsActive));
    var before := t.rooms;
    // the rooms saved so far; nothing reads the table between two saves
    var rooms := before;
    cells := [];
    crashed := false;
    var i := 0;
    while i < |rooms| && !crashed
      invariant unchanged(t)
      invariant RackedUpTo(before, rooms, cells, m, today, i)
      invariant crashed ==> i < |before| && RackRoomAsWritten(before[i], GuestOn(m, before[i].number), today).None?
      decreases |before| - i, if crashed then 0 else 1
    {
      var guest := GuestOn(m, rooms[i].number);
      var repaired := RackRoomAsWritten(rooms[i], guest, today);
      if repaired.None? {
        crashed := true;
      } else {
        RackStep(before, rooms, cells, m, today, i, repaired.value);
        cells := cells + [CellFor(rooms[i], guest, today)];
        rooms := rooms[i := repaired.value];
        i := i + 1;
      }
    }
    RackCrashAtIsFirst(before, m, today, i);
    RackedUpToRooms(before, rooms, cells, m, today, i);
    SameNumbersDistinct(before, rooms);
    t.rooms := rooms;
  }

  /** Housekeeping: mark room `id` clean. */
  method MarkRoomClean(t: GuestTable, id: Option<string>)
    requires t.Valid()
    modifies t
    ensures t.Valid()
    ensures t.rooms == Cleaned(old(t.rooms), id)
    ensures t.guests == old(t.guests) && t.nextId == old(t.nextId)
  {
    SameNumbersDistinct(t.rooms, Cleaned(t.rooms, id));
    t.rooms := Cleaned(t.rooms, id);
  }
}
