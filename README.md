# Kegama Residences front desk and payroll, modelled in Dafny

This project models two Django apps of a small hotel.

The guest app (`management`) covers:

- the public registration form;
- the guest editor: its folio of request lines and total, check-in and check-out dates, form checks, room status updates and overlap warning;
- the total `generate_guest_pdf` recomputes from a stored registration;
- the room rack, which repairs stale room statuses;
- housekeeping;
- the monthly calendar's occupancy rule;
- guest search with de-duplication;
- the lazy deletion of abandoned registrations;
- the PIN change;
- the two model-level save rules: a generated booking id, and a settings table that only ever holds row 1.

The payroll app (`payslip`) covers:

- the payslip totals and net pay;
- the lenient reading of posted amounts;
- the save view, which updates the first payslip with the same employee, period and date, deletes the others, or creates one;
- the save-and-preview view, which always creates;
- the print-all page with its period choices and grand total.

How the model is built:

- Tables are classes whose fields the views' methods update.
- The decisions the views make are pure functions.
- Each method is tied to those functions by its `ensures`.
- The properties of the functions are lemmas.
- Money is exact (`real`).
- Stay and pay dates are day numbers.
- Creation times are seconds.
- Uuids are natural numbers, except that a booking id is cut from a uuid's text, so that text is a parameter.
- Date parsing, the current time and today are parameters: `parseDate`, `parseDay`, `parseId`, `now`, `today`.

Modules:

- `Base`: `Option`.
- `Forms`: posted maps.
- `Text`: `strip`, `upper`, `replace`, `in`.
- `Numbers`: `float`, `int`, and the two amount coercions.
- `Sequences`: filter, de-duplication by key, reverse, take.
- `GuestModels`: `management/models.py`.
- `Folio`, `Booking`, `FrontDesk`: `management/views.py`.
- `PayslipModel`: `payslip/models.py`.
- `PayslipViews`: `payslip/views.py`.

Where the code and its declared choices disagree, the model follows the code:

- The views store status `CHECKED_OUT` and room status `DIRTY`, which the model choices do not list. Both are modelled.
- The guest editor does not default a nights value of 0 or less to 1. Only the total `generate_guest_pdf` computes (management/views.py:857-861) treats 0 as 1.
- A room under `MAINTENANCE` that a saved registration moves to is overwritten with `OCCUPIED`, `AVAILABLE` or `DIRTY`.
- The registration form passes `car_plate` to `create`, and the editor and the calendar use `stay_duration`. The model file declares neither column.
- Each modelled view method follows the code as written, including where it raises. This covers the registration form, the guest editor (its rejected form included), the room rack and the calendar. The corrected definitions behind the Findings are separate members, named there. `generate_guest_pdf` is not a view method here; only its total is modelled (see Left out).

## Model

| member | source | states |
|---|---|---|
| Text.Strip | management/views.py:234 | the stripped text has no whitespace at either end, and it is empty exactly when the input is all whitespace |
| Text.LeadingSpaces | management/views.py:234 | the count covers the leading whitespace and stops at the first other character |
| Text.StripTrims | management/views.py:234 | the stripped text is the piece of the input after its leading whitespace, and only whitespace follows it |
| Text.StripIdempotent | management/views.py:805 | stripping twice is stripping once |
| Text.UpperIsFinal | management/views.py:105-107 | an uppercased text holds no lower-case letter and uppercasing again changes nothing |
| Text.RemoveCommasAppend | management/views.py:222 | removing commas distributes over concatenation |
| Numbers.ParseNatText | management/views.py:237 | `float` and `int` read back the decimal text of every natural number |
| Numbers.ParseIntEmpty | management/views.py:244 | neither `int` nor `float` accepts the empty text |
| Numbers.LenientCoercion | payslip/views.py:68-73 | the lenient coercion gives 0 for the empty text and for text `float` rejects, and reads a number's decimal text back |
| Numbers.LenientIgnoresComma | payslip/views.py:70 | a comma inside the text does not change the value read |
| Sequences.UniqueByKey | management/views.py:815-821 | the seen-set loop returns exactly the first element of each key, in order |
| Sequences.FirstByKeyDistinct | management/views.py:815-821 | no key occurs twice in the de-duplicated list |
| Sequences.FirstByKeyKeepsFirsts | payslip/views.py:200 | an element whose key no earlier element has is kept |
| Sequences.FirstByKeyOnlyFirsts | payslip/views.py:200 | every kept element is the first of its key |
| Sequences.FirstByKeyPrefix | payslip/views.py:200 | de-duplicating a prefix gives a prefix of the de-duplicated whole, so order is kept |
| Sequences.FilterMembers | management/views.py:34 | what a filter leaves is exactly the rows it accepts: each kept row is from the table and accepted, and each accepted row is kept |
| Sequences.FilterIncreasing | management/views.py:34 | deleting rows keeps the ids increasing along the table |
| GuestModels.NewRegistration | management/models.py:40-75 | a new registration is PENDING with no booking id, no room, no dates, one night, no requests, rate 0 and total 0 |
| GuestModels.BookingIdFor | management/models.py:77-81 | a non-empty booking id is never changed; an empty one becomes 8 upper-case hex digits |
| GuestModels.WithStatus | management/views.py:299 | every room with the number gets the status and no other room changes |
| GuestModels.GuestTable.Create | management/models.py:77-81 | a created registration gets a fresh id and its booking id, and is appended |
| GuestModels.GuestTable.Save | management/models.py:77-81 | a saved registration overwrites its own row only, with its booking id filled in |
| GuestModels.SameNumbersDistinct | management/models.py:119 | a change that keeps every room's number keeps the room numbers distinct, as the primary key demands; `GuestTable.Valid` holds this for the room table |
| GuestModels.GuestTable.SetRoomStatus | management/views.py:299 | the room table becomes `WithStatus` of the old one, nothing else changes, and the table stays valid |
| GuestModels.AfterLoad | management/models.py:100-103 | after get-or-create, row 1 exists; an existing row 1 is kept; a new one holds the defaults (PIN "12345", no maintenance, no access code) |
| GuestModels.AfterLoadIsSingleton | management/models.py:100-103 | loading twice is loading once, and an empty or singleton table holds exactly row 1 afterwards |
| GuestModels.SettingsTable.Save | management/models.py:96-98 | whatever pk the object had, it is stored as row 1 and the table holds only row 1 |
| GuestModels.SettingsTable.Load | management/models.py:100-103 | the table becomes `AfterLoad` of the old one, and an existing row 1 is returned unchanged |
| Folio.PriceIsLenient | management/views.py:235-239 | a line's price is the lenient coercion of its posted price, and 0 when no price was posted for it |
| Folio.Lines | management/views.py:233-240 | each posted line becomes its stripped text with its price |
| Folio.PricesSumAppend | management/views.py:241 | the request total adds up over concatenation |
| Folio.CollectRequests | management/views.py:229-241 | the loop stores exactly the non-blank lines in posted order, and its running total is their price sum |
| Folio.StoredAreStripped | management/views.py:240 | every stored line is non-empty and stripped |
| Folio.NotBlankIsStored | management/views.py:234-240 | a non-blank line is stored, stripped and with its price |
| Folio.StoredIsNotBlank | management/views.py:234-240 | every stored line comes from a non-blank posted line and its price |
| Folio.BlankLinesChangeNothing | management/views.py:234 | trailing blank lines change neither the list nor the total |
| Folio.BilledNights | management/views.py:858 | `int(nights or 1)` bills any non-zero count as itself and never bills 0 |
| Folio.FolioTotal | management/views.py:243-245 | the total exists exactly when the posted nights parse (corrected: 0 nights bill as 1) |
| Folio.FolioTotalAgreesAwayFromZero | management/views.py:244 | the corrected total equals the one as written unless the nights read as 0 |
| Folio.FolioRoundTrip | management/views.py:857-861 | the total stored for a rate, nights and requests, with 0 nights billed as 1, is the total `generate_guest_pdf` computes at views.py:857-861 from the stored record |
| Folio.FolioRoundTripFailsAsWritten | management/views.py:244 | as written, nights "0" and rate 1500 store a total of 0 while the total `generate_guest_pdf` computes at views.py:857-861 is 1500 |
| Folio.CheckOutDerivation | management/views.py:258-263 | with a check-in, the check-out is the check-in plus the posted nights (check-in + 1 with no field, the check-in itself for empty nights); without one, the previous check-out stays |
| Folio.ThreeNightsWithExtraBed | management/views.py:243-245 | rate 1500, three nights and one request at "100" store 4600 |
| Booking.OverlapIffSharedNight | management/views.py:360-364 | two non-empty stays overlap exactly when some night belongs to both |
| Booking.TouchingStaysDoNotOverlap | management/views.py:362-363 | back-to-back stays do not overlap, and overlap is symmetric |
| Booking.ConflictsIff | management/views.py:324-368 | a registration is warned about exactly when it shares the room, overlaps the stay (missing dates defaulted to today and tomorrow), is another registration with both dates and is not checked out |
| Booking.NextStatus | management/views.py:287-294 | "save_and_print" gives PRINTED, "checkout" gives CHECKED_OUT, anything else keeps the status |
| Booking.NextStatusChanges | management/views.py:287-294 | a status only changes to PRINTED or CHECKED_OUT |
| Booking.RoomAfterSave | management/views.py:298-309 | after a save, the guest's room is OCCUPIED/AVAILABLE/DIRTY as its status and stay call for, a room it left is AVAILABLE, and nothing else changes |
| Booking.RoomMap | management/views.py:531 | every mapped room has a non-empty number and an active registration on it, and every active registration's room is mapped |
| Booking.RoomMapKeepsLast | management/views.py:531 | the map keeps the last active registration on each room |
| Booking.RepairedStatusAsWritten | management/views.py:552-564 | as written, the repair agrees with the corrected rule whenever both dates are set |
| Booking.RackFailsWithoutCheckIn | management/views.py:557 | a PRINTED registration without a check-in date makes the rack raise, while the corrected rule frees an OCCUPIED room |
| Booking.RepairProperties | management/views.py:556-564 | the repair never touches DIRTY or MAINTENANCE, is idempotent, and leaves an AVAILABLE/OCCUPIED room OCCUPIED exactly when its guest stays today |
| Booking.CellFor | management/views.py:540-573 | a cell shows the status from before the repair, PENDING for a pending guest and OCCUPIED for a printed one, and is in advance exactly when the check-in is after today |
| Booking.RackRoom | management/views.py:554-564 | only a room with a PRINTED guest is repaired, and only its status can change |
| Booking.RackRoomAsWritten | management/views.py:552-564 | as written, visiting a room raises exactly when its registration is PRINTED and the repair's comparison meets a missing date; otherwise the room becomes what `RackRoom` gives |
| Booking.RackCrashAt | management/views.py:536-573 | the rack stops at the first room whose visit raises: every room before it is visited without raising |
| Booking.RackFinishesWithDates | management/views.py:552-564 | when every PRINTED registration on the map has both dates, the rack visits every room |
| Booking.Cleaned | management/views.py:584-592 | marking clean keeps the table's length |
| Booking.CleanedProperties | management/views.py:584-592 | only the named DIRTY room changes, only to AVAILABLE, and marking clean again changes nothing |
| Booking.CleanedUnchanged | management/views.py:591-592 | an unknown number or a room that is not DIRTY leaves every room unchanged |
| Booking.CalendarBookingsContents | management/views.py:658-661 | the month's bars come from exactly the registrations that have both dates, touch the month, are not checked out and have a room |
| Booking.BookingMapKeys | management/views.py:663-666 | a room has a list exactly when a bar is on it |
| Booking.BookingMapLists | management/views.py:680 | a room's list holds exactly its bars, in order |
| Booking.EndNightIsHalfOpen | management/views.py:668-676 | for a stay of at least one night, the drawn range is the half-open stay, plus the check-out day for a nightly stay |
| Booking.OccupantIsOnCalendar | management/views.py:658-661 | a registration whose bar covers a day of the month is on that month's calendar |
| Booking.GroupBookings | management/views.py:663-680 | the loop builds exactly the grouped bars of the month |
| Booking.RoomOccupiedToday | management/views.py:684-689 | the inner loop finds a covering bar exactly when the room is occupied today |
| Booking.EmptyMonth | management/views.py:658-689 | a month with no registration on it has no bars, no room lists and no room occupied today |
| Booking.CalendarView | management/views.py:658-689 | as written, the view raises exactly when some registration is on the month's calendar; otherwise it shows no bars and no room occupied, as the corrected view would |
| Booking.CalendarViewCorrected | management/views.py:658-689 | with a `stay_duration` column declared, the view's map is the grouped bars, and each room is flagged exactly when occupied today |
| FrontDesk.NoneMissingIff | management/views.py:99 | nothing is reported missing exactly when every field is filled |
| FrontDesk.SubmitRegistersIff | management/views.py:88-122 | with the stray `car_plate` argument dropped, a registration is created exactly when maintenance is off, the decoy field is empty, the six required fields are filled, an `email` field is posted (the column refuses NULL) and the birth date parses; the record is PENDING with uppercased names and address, and a missing-field answer names only empty fields |
| FrontDesk.SubmitCrashesAsWritten | management/views.py:103-122 | as written, no form registers anyone: every form the intended view accepts raises at `create`, and every other form gets the intended answer |
| FrontDesk.SubmitTestFormCrashes | management/tests.py:40-59 | the form the registration test posts is registered by the intended view and raises as written |
| FrontDesk.SubmitGuestForm | management/views.py:88-122 | the view loads the settings and answers as written, so it never adds a registration |
| FrontDesk.SubmitGuestFormCorrected | management/views.py:88-122 | with the stray argument dropped, the view loads the settings and adds a registration, with its booking id filled in, exactly when it is accepted |
| FrontDesk.AgeIff | management/views.py:282-284 | the computed age is at least n exactly when today is not before the n-th birthday |
| FrontDesk.EditChecksIff | management/views.py:267-284 | the editor's checks pass exactly when the fields are filled, the birth date parses and the guest is at least 18; each error names what failed |
| FrontDesk.EditGuest | management/views.py:205-296 | an accepted edit keeps the registration's id |
| FrontDesk.EditAcceptedFolio | management/views.py:229-296 | an accepted edit keeps the id and stores the posted rate, the non-blank lines, the total `room_rate * int(nights or 1)` plus the requests (which equals the total `generate_guest_pdf` computes at views.py:857-861 unless the nights read as 0), the posted check-in, the derived check-out and the new status, and it passed all checks |
| FrontDesk.EditRejectedIff | management/views.py:267-284 | with a picker that does not raise, the form is shown again exactly when the amounts and nights parse and a check fails, with that check's error |
| Booking.PickerEmptyIff | management/views.py:333-343 | the editor page's picker lists no room exactly when every room is under MAINTENANCE or held today by another PRINTED registration and is not the posted room |
| FrontDesk.RejectedFormCrashesAsWritten | management/views.py:318-376 | as written, a form is shown again with its error exactly when it fails a check and the picker is empty; a rejected form with a non-empty picker raises, and every other outcome is the intended one |
| FrontDesk.FreeRoomCrashesRejectedForm | management/views.py:345-353 | one room that is not under MAINTENANCE and that no other registration holds today makes a rejected form raise |
| FrontDesk.UpdateRooms | management/views.py:298-309 | the room table becomes `RoomsAfterSave` of the old one, and the table stays valid |
| FrontDesk.UpdateGuest | management/views.py:197-376 | the outcome is the editor's as written, over the tables before the request; on acceptance only the edited row and the rooms change; otherwise nothing is saved |
| FrontDesk.ChangePinIff | management/views.py:493-508 | the PIN changes exactly when the old PIN matches, the new PINs agree and have at least 4 characters, and nothing else changes |
| FrontDesk.UpdateSecurity | management/views.py:486-508 | the settings row is loaded, and only an accepted change is saved |
| FrontDesk.UnexpiredProperties | management/views.py:32-34 | no PENDING registration over an hour old remains, every other one is kept, and cleaning again deletes nothing |
| FrontDesk.UnexpiredAppend | management/views.py:34 | deletion keeps the order of what remains |
| FrontDesk.CleanupExpired | management/views.py:32-34 | the table becomes `Unexpired` of the old one and keeps its id invariant |
| FrontDesk.SearchDistinct | management/views.py:805-821 | a short query shows nothing; otherwise no two results share name and phone, and every name and phone among the 10 newest matches is shown |
| FrontDesk.SearchBounded | management/views.py:813 | at most 10 results are shown |
| FrontDesk.SearchShowsMatches | management/views.py:809-813 | every result is a registration whose first name, last name or phone contains the stripped query, ignoring case |
| FrontDesk.SearchGuests | management/views.py:805-821 | the view's loop returns exactly `SearchResults` |
| FrontDesk.RoomRack | management/views.py:527-573 | the view raises exactly at the first room where `RackCrashAt` stops; each room before it gets a cell drawn from its status before the repair and is saved as `RackRoom` says, and the rooms from there on are unchanged; the table stays valid |
| FrontDesk.MarkRoomClean | management/views.py:580-592 | the room table becomes `Cleaned` of the old one, and the table stays valid |
| PayslipModel.WithEarning | payslip/views.py:103-104 | setting one earning column changes that column only |
| PayslipModel.WithDeduction | payslip/views.py:103-104 | setting one deduction column changes that column only |
| PayslipModel.TotalsAreColumnSums | payslip/models.py:41-53 | the totals are the sums over each of the six columns of their kind, and the net pay is their difference |
| PayslipModel.DefaultPayslipIsZero | payslip/models.py:26-39 | a payslip at the column defaults has zero totals and zero net pay |
| PayslipModel.RaiseEarning | payslip/models.py:41-53 | raising one earning by d raises the net pay by exactly d and leaves the deductions alone |
| PayslipModel.RaiseDeduction | payslip/models.py:46-53 | raising one deduction by d lowers the net pay by exactly d and leaves the earnings alone |
| PayslipViews.GetFloatCoercion | payslip/views.py:68-73 | `get_float` gives 0 for a missing key, an empty value or a non-number, reads a number's text back, and ignores commas |
| PayslipViews.EmptyFormPostsZeros | payslip/views.py:85-98 | a form posting no amounts gives the column defaults |
| PayslipViews.PayDate | payslip/views.py:76 | an empty or missing pay date is today; a posted one is parsed |
| PayslipViews.NewSlip | payslip/views.py:110-117 | a created payslip carries the posted employee, period and date |
| PayslipViews.UpsertUpdatesFirstMatch | payslip/views.py:100-109 | when payslips with the key exist, exactly one remains: the first, keeping its id, with the posted amounts |
| PayslipViews.UpsertCreatesWhenAbsent | payslip/views.py:110-117 | when none exists, exactly one payslip with the posted amounts is appended and nothing else changes |
| PayslipViews.UpsertKeepsOthers | payslip/views.py:79-109 | payslips with another key are neither changed, deleted nor reordered |
| PayslipViews.UpsertKeepsIds | payslip/views.py:100-117 | after the upsert, ids still increase along the table and stay below the next id |
| PayslipViews.ReadPosted | payslip/views.py:65-76 | an accepted request names a stored employee, the posted period and the pay date |
| PayslipViews.UpdateFirst | payslip/views.py:100-109 | with a payslip of the key at `f` first, the table becomes `Upserted` of the old one, the next id is unchanged, and the updated payslip is the only one with its key |
| PayslipViews.AppendNew | payslip/views.py:110-117 | with no payslip of the key, the table becomes `Upserted` of the old one, the next id advances, and the new payslip is the only one with its key |
| PayslipViews.Upsert | payslip/views.py:79-117 | the table becomes `Upserted` of the old one, and the saved payslip is the only one with its key |
| PayslipViews.SavePayslip | payslip/views.py:59-122 | an unknown employee gives 404 and a malformed request fails, changing nothing in both cases; otherwise the table is upserted with the posted amounts |
| PayslipViews.AppendKeepsIds | payslip/views.py:124-159 | appending a payslip that has the next id keeps ids increasing along the table and below the following id |
| PayslipViews.SaveAndPreview | payslip/views.py:124-159 | the view always appends a new payslip with the posted amounts and shows it, with no de-duplication |
| PayslipViews.PeriodsNewestFirst | payslip/views.py:198 | the period list reads the payslips newest first |
| PayslipViews.AvailablePeriodsDistinct | payslip/views.py:198-200 | no period is offered twice |
| PayslipViews.AvailablePeriodsComplete | payslip/views.py:198-200 | the period of every payslip is offered |
| PayslipViews.AvailablePeriodsSound | payslip/views.py:198-200 | only periods that some payslip has are offered |
| PayslipViews.Latest | payslip/views.py:212 | present exactly when there is a payslip, and it has the latest pay date |
| PayslipViews.SelectedSlipProperties | payslip/views.py:207-212 | the shown payslip is the employee's own, of the selected period if one is set, with the latest pay date; there is none exactly when no such payslip exists |
| PayslipViews.GrandTotalAppend | payslip/views.py:204-220 | the grand total adds up over lists of employees |
| PayslipViews.GrandTotalWithoutSlips | payslip/views.py:214-215 | employees with nothing to show add nothing |
| PayslipViews.AddLine | payslip/views.py:207-215 | one loop step shows the selected payslip and adds its net pay when there is one |
| PayslipViews.Lines | payslip/views.py:204-220 | one line per employee in order with the payslip `SelectedSlip` picks, and a total equal to `GrandTotal` |
| PayslipViews.PrintAll | payslip/views.py:190-227 | one line per employee with the shown payslip, the period choices, and a total equal to `GrandTotal` |

## Left out

- Sessions, login and rate limiting are not modelled. Neither are the owner checks, cookies, audit logging, HTML and PDF rendering, or the HX-Request variants.
- The other views are not modelled: `intro`, `guest_form_page` and its access code, `admin_login`, `dashboard` (apart from the cleanup it starts), `delete_guest`, the analytics pages, `room_management`, `print_timeline`, `new_booking`, `guest_lookup_page`, `clone_guest`, and the employee list, add, remove and generate pages. Also left out is the settings view's `update_config` action.
- Date parsing (`strptime`, Django's `DateField` parsing) is a parameter. So are uuid parsing, the month's bounds and today. Calendar arithmetic on month lengths is not modelled.
- Floating point, and `Decimal` quantization to two places (with its digit limits), are not modelled: amounts are exact.
- `Numbers.ParseNumber` and `Numbers.ParseInt` accept plain decimal text only. Python's exponents, `inf`, `nan`, `_` separators and non-ASCII digits are not modelled.
- `Text.Strip` and `Text.Upper` treat only ASCII whitespace and letters. The whitespace includes the separators U+001C to U+001F, which Python also strips. U+0085, U+00A0 and the other Unicode spaces and letters are not modelled, so `icontains` is ASCII case folding.
- Pax, payment mode, check-in and check-out times, email validation and the stored JSON encoding of requests are not modelled. The editor's `car_plate` assignment (management/views.py:212) sets an attribute that no column keeps, so it is left out too. The editor's GET page is not modelled; it draws the same room picker and so raises the same way whenever the picker lists a room.
- The error messages' wording is not modelled. Outcomes carry which check failed and the fields involved.
- Database order among equal sort keys is left out. Tables keep creation order. `order_by('-created_at')` is taken as newest first by position. `.first()` on ties takes the earliest row. The employee list is taken to be already in name order.
- `FrontDesk.RoomRack`: the room table is taken to be stored in `order_by('floor', 'number')` order, and the rack walks it by position. Neither `GuestTable.Valid` nor a precondition states that order. With rooms stored in another order, the rooms saved before the rack raises can differ from the source's.
- `Booking.RoomMap`: stated as "some active registration on the room", plus `RoomMapKeepsLast` for the last one. It does not give the winner when later registrations share the room.
- `FrontDesk.EditGuest`: its own contract states only that the id is kept. `EditAcceptedFolio` and `EditRejectedIff` carry the rest.
- `FrontDesk.EditRejectedIff` and `Booking.ConflictsIff`: these describe the editor page as it would be drawn. As written, that page raises at management/views.py:353 whenever the picker lists a room, so the error and the overlap warning are shown only with an empty picker. `FrontDesk.EditGuestAsWritten` is what `UpdateGuest` returns; see Findings.
- `Folio.FolioRoundTrip`: `generate_guest_pdf` computes this total at management/views.py:857-861 and then raises at views.py:873. It reads `policy_text`, which `AdminSettings` (management/models.py:86-106) does not declare, so no registration is ever printed as written. The model states the recompute only, and the view is not modelled.
- `FrontDesk.EditGuest`: save-time failures of columns the model does not hold are not modelled. The model accepts such an edit, where the source raises at `save`. The cases are: a form without `email` stores None in a NOT NULL column; a `pax` that is not integer text, such as "" or "x", fails the integer column; a malformed `check_in_time` fails the time column.
- `Booking.CalendarView` and `FrontDesk.EditGuest`: `stay_duration` is not a column. The editor's assignment (management/views.py:218) sets an attribute that `save` drops, so every record keeps the empty duration. The calendar as written raises for any month with a bar; see Findings. `print_timeline` reads it the same way but is not modelled.
- `FrontDesk.SubmitGuestForm` and the other view methods: they are stated against the view functions. An unhandled exception is an outcome, not a rollback. Rows the room rack saved before it raised stay saved.
- Concurrency is not modelled: each request runs alone. Two first requests racing in `AdminSettings.load`'s `get_or_create` (management/models.py:101-103) could both try to insert row 1. The model loads the settings one request at a time.
- `PayslipViews.ReadPosted`: a malformed employee uuid is treated as a failed request. A missing `pay_period` is treated as failing (the column refuses NULL) rather than raising at create time.
- `PayslipViews.Latest`: ties on the pay date resolve to the earliest row. The database order for ties is unspecified.

## Findings

| source | as written | input that shows it | evidently intended | confidence | as-written member | corrected member |
|---|---|---|---|---|---|---|
| management/views.py:244 | the stored total is `room_rate * int(nights or 1)` on the posted text, so nights "0" bills no room charge, while `generate_guest_pdf` (views.py:858) bills `int(0 or 1)` = 1 night | rate 1500, nights "0", no requests: the stored total is 0 and the recomputed total is 1500 | the stored total equals the total `generate_guest_pdf` computes | medium, not executed | Folio.FolioRoundTripFailsAsWritten | Folio.FolioRoundTrip |
| management/views.py:557 | the rack compares `check_in_date <= today` for every PRINTED registration, but the editor can save a PRINTED registration without a check-in date (views.py:254, 292), and `None <= date` raises TypeError | a PRINTED registration on a room with no check-in date: the room rack page fails, after saving the repaired rooms before that one | a registration without dates does not count as staying today | high, not executed | Booking.RackFailsWithoutCheckIn | Booking.RepairProperties |
| management/views.py:110 | `create` is passed `car_plate=`, a field the registration model (management/models.py:24-81) does not declare, so Django raises TypeError for every form that passes the three checks | the form of management/tests.py:40-59: first and last name, address, phone, email, birth date 1992-02-02, gender and source, with maintenance off | the form registers a PENDING guest, as the test expects | high, not executed | FrontDesk.SubmitCrashesAsWritten | FrontDesk.SubmitRegistersIff |
| management/views.py:353 | a form that fails the editor's checks falls through to the editor page, whose room picker reads `room.price_6hr`; `Room` (management/models.py:118-131) declares no such field, so AttributeError is raised at the first listed room, before the error or the overlap warning is drawn | one AVAILABLE room "101" that no registration holds, and a posted form with `first_name` empty and every other field valid | the form is shown again with its error and any overlap warning | high, not executed | FrontDesk.FreeRoomCrashesRejectedForm | FrontDesk.EditRejectedIff |
| management/views.py:668 | the calendar reads `guest.stay_duration`, which the registration model does not declare and the editor's save never stores (views.py:218), so AttributeError is raised for the first registration of the month | any month holding a registration that has both dates, a room and a status other than CHECKED_OUT | a `stay_duration` text column, stored by the editor and read by the calendar | high, not executed | Booking.CalendarView | Booking.CalendarViewCorrected |
