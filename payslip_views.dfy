/** The payroll views: saving a payslip from the posted form (updating the
    first payslip with the same employee, period and date and deleting the
    other ones, or creating one), saving a payslip for preview, and the
    print-all page with its period list and grand total. Parsing a uuid and a
    date are parameters, and so are today and the current time. */
module PayslipViews {
  import opened Base
  import opened Text
  import opened Numbers
  import opened Sequences
  import opened Forms
  import opened PayslipModel

  // ------------------------------------------------------------ posted amounts

  /** `get_float(key)`: the posted text (default "0") without commas, read as a
      number, with 0 for an empty value and for a value `float` rejects. */
  function GetFloat(form: map<string, string>, key: string): real {
    Lenient(GetOr(form, key, "0"))
  }

  /** `get_float` never fails: a missing key, an empty value and a value that
      is not a number all give 0, a number's decimal text gives that number,
      and a thousands separator is ignored. */
  lemma GetFloatCoercion(form: map<string, string>, key: string, n: nat, pre: string, post: string)
    ensures key !in form ==> GetFloat(form, key) == 0.0
    ensures key in form && form[key] == "" ==> GetFloat(form, key) == 0.0
    ensures key in form && RemoveCommas(form[key]) != "" && ParseNumber(RemoveCommas(form[key])).None? ==>
              GetFloat(form, key) == 0.0
    ensures key in form && form[key] == NatText(n) ==> GetFloat(form, key) == n as real
    ensures GetFloat(form[key := pre + "," + post], key) == GetFloat(form[key := pre + post], key)
  {
    LenientCoercion(GetOr(form, key, "0"), n);
    LenientIgnoresComma(pre, post);
    if key !in form {
      assert Lenient("0") == 0.0 by { LenientCoercion("", 0); assert NatText(0) == "0"; }
    }
  }

  function PostedEarnings(form: map<string, string>): Earnings {
    Earnings(GetFloat(form, "earning_regular"), GetFloat(form, "earning_holiday"),
             GetFloat(form, "earning_overtime"), GetFloat(form, "earning_allowances"),
             GetFloat(form, "earning_13th"), GetFloat(form, "earning_other"))
  }

  function PostedDeductions(form: map<string, string>): Deductions {
    Deductions(GetFloat(form, "deduction_sss"), GetFloat(form, "deduction_philhealth"),
               GetFloat(form, "deduction_pagibig"), GetFloat(form, "deduction_tax"),
               GetFloat(form, "deduction_cashadv"), GetFloat(form, "deduction_other"))
  }

  /** A form that posts no amount gives the column defaults. */
  lemma EmptyFormPostsZeros()
    ensures PostedEarnings(map[]) == NoEarnings && PostedDeductions(map[]) == NoDeductions
  {
    assert Lenient("0") == 0.0 by {
      LenientCoercion("", 0);
      assert NatText(0) == "0";
    }
    forall key: string ensures GetFloat(map[], key) == 0.0 {
      assert GetOr(map[], key, "0") == "0";
    }
  }

  /** `request.POST.get('pay_date') or today`: None where the posted date
      cannot be parsed, which makes the view raise. */
  function PayDate(form: map<string, string>, parseDay: string -> Option<int>, today: int): (r: Option<int>)
    ensures !Filled(form, "pay_date") ==> r == Some(today)
    ensures Filled(form, "pay_date") ==> r == parseDay(form["pay_date"])
  {
    if Filled(form, "pay_date") then parseDay(form["pay_date"]) else Some(today)
  }

  // --------------------------------------------------------------- the upsert

  /** What identifies a payslip to the save view. */
  datatype SlipKey = SlipKey(employee: nat, period: string, payDate: int)

  function KeyOf(p: Payslip): SlipKey {
    SlipKey(p.employee, p.payPeriod, p.payDate)
  }

  function SlipId(p: Payslip): int {
    p.id
  }

  function HasKey(k: SlipKey): Payslip -> bool {
    (p: Payslip) => KeyOf(p) == k
  }

  function OtherKey(k: SlipKey): Payslip -> bool {
    (p: Payslip) => KeyOf(p) != k
  }

  /** What `existing_slips.exclude(id=kept).delete()` leaves. */
  function Survives(k: SlipKey, kept: nat): Payslip -> bool {
    (p: Payslip) => KeyOf(p) != k || p.id == kept
  }

  function NewSlip(id: nat, k: SlipKey, createdAt: int, e: Earnings, d: Deductions): (p: Payslip)
    ensures KeyOf(p) == k
  {
    Payslip(id, k.employee, k.period, k.payDate, createdAt, e, d)
  }

  /** The payslip table after the save view: the first payslip with key `k`
      gets the posted amounts and every other payslip with that key is
      deleted; when there is none, a new one with id `newId` is appended. */
  function Upserted(s: seq<Payslip>, k: SlipKey, e: Earnings, d: Deductions, newId: nat, createdAt: int): seq<Payslip> {
    match FirstIndex(s, HasKey(k))
    case None => s + [NewSlip(newId, k, createdAt, e, d)]
    case Some(f) => Filter(s[f := s[f].(earnings := e, deductions := d)], Survives(k, s[f].id))
  }

  /** When payslips with the key exist, exactly one is left: the first one,
      with its id and creation time, carrying the posted amounts. */
  lemma UpsertUpdatesFirstMatch(s: seq<Payslip>, k: SlipKey, e: Earnings, d: Deductions, newId: nat,
                                createdAt: int, f: nat)
    requires Increasing(s, SlipId)
    requires f < |s| && KeyOf(s[f]) == k && forall j :: 0 <= j < f ==> KeyOf(s[j]) != k
    ensures Filter(Upserted(s, k, e, d, newId, createdAt), HasKey(k)) == [s[f].(earnings := e, deductions := d)]
  {
    var first := FirstIndex(s, HasKey(k));
    assert first == Some(f) by {
      if first.Some? {
        assert !(first.value < f) && !(f < first.value);
      }
    }
    var t := s[f := s[f].(earnings := e, deductions := d)];
    var alive := Survives(k, s[f].id);
    FilterFilter(t, alive, HasKey(k));
    forall j | 0 <= j < |t| && j != f ensures !Both(alive, HasKey(k))(t[j]) {
      assert t[j] == s[j];
      if j < f {
        assert SlipId(s[j]) < SlipId(s[f]);
      } else {
        assert SlipId(s[f]) < SlipId(s[j]);
      }
    }
    FilterSingle(t, Both(alive, HasKey(k)), f);
  }

  /** When no payslip has the key, one new payslip is appended and nothing else changes. */
  lemma UpsertCreatesWhenAbsent(s: seq<Payslip>, k: SlipKey, e: Earnings, d: Deductions, newId: nat, createdAt: int)
    requires forall j :: 0 <= j < |s| ==> KeyOf(s[j]) != k
    ensures Upserted(s, k, e, d, newId, createdAt) == s + [NewSlip(newId, k, createdAt, e, d)]
    ensures Filter(Upserted(s, k, e, d, newId, createdAt), HasKey(k)) == [NewSlip(newId, k, createdAt, e, d)]
  {
    var created := NewSlip(newId, k, createdAt, e, d);
    FilterAppend(s, [created], HasKey(k));
    FilterAllOrNothing(s, HasKey(k));
    assert [created][..0] == [];
  }

  /** Payslips with another key are neither changed, deleted nor reordered. */
  lemma UpsertKeepsOthers(s: seq<Payslip>, k: SlipKey, e: Earnings, d: Deductions, newId: nat, createdAt: int)
    ensures Filter(Upserted(s, k, e, d, newId, createdAt), OtherKey(k)) == Filter(s, OtherKey(k))
  {
    match FirstIndex(s, HasKey(k))
    case None =>
      var created := NewSlip(newId, k, createdAt, e, d);
      FilterAppend(s, [created], OtherKey(k));
      assert [created][..0] == [];
    case Some(f) =>
      var t := s[f := s[f].(earnings := e, deductions := d)];
      var alive := Survives(k, s[f].id);
      FilterFilter(t, alive, OtherKey(k));
      FilterEquivalent(t, Both(alive, OtherKey(k)), OtherKey(k));
      FilterUpdateRejected(s, OtherKey(k), f, s[f].(earnings := e, deductions := d));
  }

  /** Ids increase along the table and are all below `next`. */
  ghost predicate IdsBelow(s: seq<Payslip>, next: int) {
    Increasing(s, SlipId) && forall i :: 0 <= i < |s| ==> s[i].id < next
  }

  /** The upsert keeps ids increasing along the table and below the next id. */
  lemma UpsertKeepsIds(s: seq<Payslip>, k: SlipKey, e: Earnings, d: Deductions, newId: nat, createdAt: int)
    requires IdsBelow(s, newId)
    ensures FirstIndex(s, HasKey(k)).Some? ==> IdsBelow(Upserted(s, k, e, d, newId, createdAt), newId)
    ensures FirstIndex(s, HasKey(k)).None? ==> IdsBelow(Upserted(s, k, e, d, newId, createdAt), newId + 1)
  {
    match FirstIndex(s, HasKey(k))
    case None =>
    case Some(f) =>
      var t := s[f := s[f].(earnings := e, deductions := d)];
      assert Increasing(t, SlipId) by {
        forall i, j | 0 <= i < j < |t| ensures SlipId(t[i]) < SlipId(t[j]) {
          assert SlipId(t[i]) == SlipId(s[i]) && SlipId(t[j]) == SlipId(s[j]);
        }
      }
      FilterIncreasing(t, Survives(k, s[f].id), SlipId);
      var r := Filter(t, Survives(k, s[f].id));
      FilterMembers(t, Survives(k, s[f].id));
      forall i | 0 <= i < |r| ensures r[i].id < newId {
        var j :| 0 <= j < |t| && t[j] == r[i];
      }
  }

  /** Appending a payslip with the next id keeps ids increasing and below the following id. */
  lemma AppendKeepsIds(s: seq<Payslip>, slip: Payslip, next: nat)
    requires IdsBelow(s, next) && slip.id == next
    ensures IdsBelow(s + [slip], next + 1)
  {
    var t := s + [slip];
    forall i, j | 0 <= i < j < |t| ensures SlipId(t[i]) < SlipId(t[j]) {
      if j < |s| {
        assert t[i] == s[i] && t[j] == s[j];
      } else {
        assert t[i] == s[i];
      }
    }
  }

  // ---------------------------------------------------------------- the store

  /** The employee and payslip tables. Payslips are kept in creation order;
      their ids increase along the table. */
  class PayslipStore {
    var employees: seq<Employee>
    var slips: seq<Payslip>
    var nextId: nat

    ghost predicate Valid()
      reads this
    {
      IdsBelow(slips, nextId)
    }

    constructor (employees: seq<Employee>)
      ensures Valid() && this.employees == employees && slips == []
    {
      this.employees := employees;
      slips := [];
      nextId := 0;
    }
  }

  function HasId(id: nat): Employee -> bool {
    (e: Employee) => e.id == id
  }

  /** What the posted employee, period and date come to: the employee is not
      found (404), the request fails (an unparsable uuid or date, or no
      period, which the table refuses), or the key of the payslip. */
  datatype Posted = NoEmployee | Malformed | PostedKey(employee: Employee, key: SlipKey)

  function ReadPosted(employees: seq<Employee>, form: map<string, string>, parseId: string -> Option<nat>,
                      parseDay: string -> Option<int>, today: int): (r: Posted)
    ensures r.PostedKey? ==> r.employee in employees && r.key.employee == r.employee.id
    ensures r.PostedKey? ==> Get(form, "pay_period") == Some(r.key.period)
    ensures r.PostedKey? ==> PayDate(form, parseDay, today) == Some(r.key.payDate)
  {
    match Get(form, "employee_id")
    case None => NoEmployee
    case Some(text) =>
      match parseId(text)
      case None => Malformed
      case Some(id) =>
        match FirstIndex(employees, HasId(id))
        case None => NoEmployee
        case Some(i) =>
          match (Get(form, "pay_period"), PayDate(form, parseDay, today))
          case (Some(period), Some(day)) => PostedKey(employees[i], SlipKey(id, period, day))
          case _ => Malformed
  }

  datatype SaveOutcome = EmployeeNotFound | SaveFailed | Saved(slip: Payslip)

  /** The update branch of the upsert: the first payslip with key `k`, at
      `f`, takes the posted amounts and every later one with the key goes. */
  method UpdateFirst(st: PayslipStore, k: SlipKey, e: Earnings, d: Deductions, now: int, f: nat) returns (slip: Payslip)
    requires st.Valid() && FirstIndex(st.slips, HasKey(k)) == Some(f)
    modifies st
    ensures st.Valid() && st.employees == old(st.employees) && st.nextId == old(st.nextId)
    ensures st.slips == Upserted(old(st.slips), k, e, d, old(st.nextId), now)
    ensures Filter(st.slips, HasKey(k)) == [slip] && slip.earnings == e && slip.deductions == d
  {
    var s := st.slips;
    UpsertKeepsIds(s, k, e, d, st.nextId, now);
    UpsertUpdatesFirstMatch(s, k, e, d, st.nextId, now, f);
    slip := s[f].(earnings := e, deductions := d);
    st.slips := Filter(s[f := slip], Survives(k, slip.id));
  }

  /** The create branch of the upsert: no payslip has key `k`, so a new one
      with the next id is appended. */
  method AppendNew(st: PayslipStore, k: SlipKey, e: Earnings, d: Deductions, now: int) returns (slip: Payslip)
    requires st.Valid() && FirstIndex(st.slips, HasKey(k)).None?
    modifies st
    ensures st.Valid() && st.employees == old(st.employees) && st.nextId == old(st.nextId) + 1
    ensures st.slips == Upserted(old(st.slips), k, e, d, old(st.nextId), now)
    ensures Filter(st.slips, HasKey(k)) == [slip] && slip.earnings == e && slip.deductions == d
  {
    var s := st.slips;
    UpsertKeepsIds(s, k, e, d, st.nextId, now);
    UpsertCreatesWhenAbsent(s, k, e, d, st.nextId, now);
    slip := NewSlip(st.nextId, k, now, e, d);
    st.slips := s + [slip];
    st.nextId := st.nextId + 1;
  }

  /** The database work of `save_payslip` for key `k`: update the first
      payslip with the key and delete the others, or create one. */
  method Upsert(st: PayslipStore, k: SlipKey, e: Earnings, d: Deductions, now: int) returns (slip: Payslip)
    requires st.Valid()
    modifies st
    ensures st.Valid() && st.employees == old(st.employees)
    ensures st.slips == Upserted(old(st.slips), k, e, d, old(st.nextId), now)
    ensures Filter(st.slips, HasKey(k)) == [slip] && slip.earnings == e && slip.deductions == d
  {
    var first := FirstIndex(st.slips, HasKey(k));
    if first.Some? {
      slip := UpdateFirst(st, k, e, d, now, first.value);
    } else {
      slip := AppendNew(st, k, e, d, now);
    }
  }

  /** `save_payslip`. */
  method SavePayslip(st: PayslipStore, form: map<string, string>, parseId: string -> Option<nat>,
                     parseDay: string -> Option<int>, today: int, now: int) returns (r: SaveOutcome)
    requires st.Valid()
    modifies st
    ensures st.Valid() && st.employees == old(st.employees)
    ensures match ReadPosted(old(st.employees), form, parseId, parseDay, today)
            case NoEmployee => r == EmployeeNotFound && st.slips == old(st.slips)
            case Malformed => r == SaveFailed && st.slips == old(st.slips)
            case PostedKey(_, k) =>
              && r.Saved?
              && st.slips == Upserted(old(st.slips), k, PostedEarnings(form), PostedDeductions(form), old(st.nextId), now)
              && Filter(st.slips, HasKey(k)) == [r.slip]
              && r.slip.earnings == PostedEarnings(form) && r.slip.deductions == PostedDeductions(form)
  {
    match ReadPosted(st.employees, form, parseId, parseDay, today)
    case NoEmployee => r := EmployeeNotFound;
    case Malformed => r := SaveFailed;
    case PostedKey(_, k) =>
      var slip := Upsert(st, k, PostedEarnings(form), PostedDeductions(form), now);
      r := Saved(slip);
  }

  datatype PreviewOutcome = PreviewNotFound | PreviewFailed | Preview(employee: Employee, slip: Payslip)

  /** `save_and_preview`: always creates a payslip, whatever payslips with the
      same key exist, and shows it with its totals. */
  method SaveAndPreview(st: PayslipStore, form: map<string, string>, parseId: string -> Option<nat>,
                        parseDay: string -> Option<int>, today: int, now: int) returns (r: PreviewOutcome)
    requires st.Valid()
    modifies st
    ensures st.Valid() && st.employees == old(st.employees)
    ensures match ReadPosted(old(st.employees), form, parseId, parseDay, today)
            case NoEmployee => r == PreviewNotFound && st.slips == old(st.slips)
            case Malformed => r == PreviewFailed && st.slips == old(st.slips)
            case PostedKey(emp, k) =>
              && r == Preview(emp, NewSlip(old(st.nextId), k, now, PostedEarnings(form), PostedDeductions(form)))
              && st.slips == old(st.slips) + [r.slip]
  {
    match ReadPosted(st.employees, form, parseId, parseDay, today)
    case NoEmployee => r := PreviewNotFound;
    case Malformed => r := PreviewFailed;
    case PostedKey(emp, k) =>
      var slip := NewSlip(st.nextId, k, now, PostedEarnings(form), PostedDeductions(form));
      AppendKeepsIds(st.slips, slip, st.nextId);
      st.slips := st.slips + [slip];
      st.nextId := st.nextId + 1;
      r := Preview(emp, slip);
  }

  // ------------------------------------------------------------ print all

  /** `dict.fromkeys` de-duplicates periods on the period text itself: this
      is the key `FirstByKey` is given. */
  function PeriodKey(p: string): string {
    p
  }

  /** The pay periods of the payslips, newest payslip first. */
  function PeriodsNewestFirst(slips: seq<Payslip>): (r: seq<string>)
    ensures |r| == |slips|
    ensures forall i :: 0 <= i < |slips| ==> r[i] == slips[|slips| - 1 - i].payPeriod
  {
    Reverse(seq(|slips|, i requires 0 <= i < |slips| => slips[i].payPeriod))
  }

  /** The period filter's choices: each period once, at its newest payslip. */
  function AvailablePeriods(slips: seq<Payslip>): seq<string> {
    FirstByKey(PeriodsNewestFirst(slips), PeriodKey)
  }

  /** No period is offered twice. */
  lemma AvailablePeriodsDistinct(slips: seq<Payslip>)
    ensures DistinctKeys(AvailablePeriods(slips), PeriodKey)
  {
    FirstByKeyDistinct(PeriodsNewestFirst(slips), PeriodKey);
  }

  /** The period of every payslip is offered. */
  lemma AvailablePeriodsComplete(slips: seq<Payslip>)
    ensures forall i :: 0 <= i < |slips| ==> slips[i].payPeriod in AvailablePeriods(slips)
  {
    var ps := PeriodsNewestFirst(slips);
    var r := AvailablePeriods(slips);
    forall i | 0 <= i < |slips| ensures slips[i].payPeriod in r {
      var j := |slips| - 1 - i;
      assert PeriodKey(ps[j]) in KeysOf(r, PeriodKey);
      var m :| 0 <= m < |r| && PeriodKey(r[m]) == PeriodKey(ps[j]);
    }
  }

  /** Only periods of payslips are offered. */
  lemma AvailablePeriodsSound(slips: seq<Payslip>)
    ensures forall p :: p in AvailablePeriods(slips) ==> exists i :: 0 <= i < |slips| && slips[i].payPeriod == p
  {
    var ps := PeriodsNewestFirst(slips);
    forall p | p in AvailablePeriods(slips) ensures exists i :: 0 <= i < |slips| && slips[i].payPeriod == p {
      var j :| 0 <= j < |ps| && ps[j] == p;
      var i := |slips| - 1 - j;
      assert slips[i].payPeriod == p;
    }
  }

  /** The payslip with the latest pay date; among equal dates, the earliest in the table. */
  function Latest(s: seq<Payslip>): (r: Option<Payslip>)
    ensures r.None? <==> s == []
    ensures r.Some? ==> r.value in s && forall i :: 0 <= i < |s| ==> s[i].payDate <= r.value.payDate
  {
    if s == [] then None
    else
      var last := s[|s| - 1];
      match Latest(s[..|s| - 1])
      case None => Some(last)
      case Some(p) => if last.payDate > p.payDate then Some(last) else Some(p)
  }

  /** The payslips the page looks among for one employee: all of theirs, or
      those of the selected period when one is selected (`if selected_period`). */
  function Candidate(emp: nat, period: Option<string>): Payslip -> bool {
    (p: Payslip) => p.employee == emp && (period.None? || period.value == "" || p.payPeriod == period.value)
  }

  /** The payslip shown for employee `emp`. */
  function SelectedSlip(slips: seq<Payslip>, emp: nat, period: Option<string>): Option<Payslip> {
    Latest(Filter(slips, Candidate(emp, period)))
  }

  /** The shown payslip is the employee's own, of the selected period when
      there is one, with the latest pay date among those; there is none
      exactly when the employee has no such payslip. */
  lemma SelectedSlipProperties(slips: seq<Payslip>, emp: nat, period: Option<string>)
    ensures var r := SelectedSlip(slips, emp, period);
            && (r.None? <==> forall i :: 0 <= i < |slips| ==> !Candidate(emp, period)(slips[i]))
            && (r.Some? ==> r.value in slips && r.value.employee == emp)
            && (r.Some? && period.Some? && period.value != "" ==> r.value.payPeriod == period.value)
            && (r.Some? ==> forall i :: 0 <= i < |slips| && Candidate(emp, period)(slips[i]) ==>
                              slips[i].payDate <= r.value.payDate)
  {
    var c := Filter(slips, Candidate(emp, period));
    FilterMembers(slips, Candidate(emp, period));
    if forall i :: 0 <= i < |slips| ==> !Candidate(emp, period)(slips[i]) {
      FilterAllOrNothing(slips, Candidate(emp, period));
    } else {
      var i :| 0 <= i < |slips| && Candidate(emp, period)(slips[i]);
      assert slips[i] in c;
    }
    var r := SelectedSlip(slips, emp, period);
    if r.Some? {
      assert Candidate(emp, period)(r.value);
      forall i | 0 <= i < |slips| && Candidate(emp, period)(slips[i]) ensures slips[i].payDate <= r.value.payDate {
        assert slips[i] in c;
        var j :| 0 <= j < |c| && c[j] == slips[i];
      }
    }
  }

  /** What employee `emp` adds to the grand total. */
  function Contribution(slips: seq<Payslip>, emp: nat, period: Option<string>): real {
    match SelectedSlip(slips, emp, period)
    case None => 0.0
    case Some(p) => NetPay(p)
  }

  /** The sum of the net pay of the shown payslip of each employee who has one. */
  function GrandTotal(slips: seq<Payslip>, employees: seq<Employee>, period: Option<string>): real {
    if employees == [] then 0.0
    else GrandTotal(slips, employees[..|employees| - 1], period) + Contribution(slips, employees[|employees| - 1].id, period)
  }

  /** The grand total of two lists of employees is the sum of theirs. */
  lemma {:induction false} GrandTotalAppend(slips: seq<Payslip>, a: seq<Employee>, b: seq<Employee>, period: Option<string>)
    ensures GrandTotal(slips, a + b, period) == GrandTotal(slips, a, period) + GrandTotal(slips, b, period)
    decreases |b|
  {
    if b == [] {
      assert a + b == a;
    } else {
      var b' := b[..|b| - 1];
      assert (a + b)[..|a + b| - 1] == a + b';
      GrandTotalAppend(slips, a, b', period);
    }
  }

  /** Employees with nothing to show add nothing to the grand total. */
  lemma {:induction false} GrandTotalWithoutSlips(slips: seq<Payslip>, employees: seq<Employee>, period: Option<string>)
    requires forall i :: 0 <= i < |employees| ==> SelectedSlip(slips, employees[i].id, period).None?
    ensures GrandTotal(slips, employees, period) == 0.0
  {
    if employees != [] {
      var init := employees[..|employees| - 1];
      assert forall i :: 0 <= i < |init| ==> init[i] == employees[i];
      GrandTotalWithoutSlips(slips, init, period);
    }
  }

  lemma GrandTotalStep(slips: seq<Payslip>, employees: seq<Employee>, i: nat, period: Option<string>)
    requires i < |employees|
    ensures GrandTotal(slips, employees[..i + 1], period)
            == GrandTotal(slips, employees[..i], period) + Contribution(slips, employees[i].id, period)
  {
    assert employees[..i + 1][..i] == employees[..i];
  }

  /** The loop body of the print-all page for one employee: the payslip
      shown, and the running total with its net pay added if there is one. */
  method AddLine(slips: seq<Payslip>, emp: nat, period: Option<string>, total: real) returns (slip: Option<Payslip>, sum: real)
    ensures slip == SelectedSlip(slips, emp, period)
    ensures sum == total + Contribution(slips, emp, period)
  {
    slip := SelectedSlip(slips, emp, period);
    sum := total;
    if slip.Some? {
      sum := sum + NetPay(slip.value);
    }
  }

  /** One line of the print-all page. */
  datatype SlipRow = SlipRow(employee: Employee, slip: Option<Payslip>)

  /** The lines of the print-all page for `employees`, in their order. */
  function RowsFor(slips: seq<Payslip>, employees: seq<Employee>, period: Option<string>): seq<SlipRow> {
    seq(|employees|, j requires 0 <= j < |employees| => SlipRow(employees[j], SelectedSlip(slips, employees[j].id, period)))
  }

  /** One more employee adds one line at the end. */
  lemma RowsForStep(slips: seq<Payslip>, employees: seq<Employee>, i: nat, period: Option<string>)
    requires i < |employees|
    ensures RowsFor(slips, employees[..i + 1], period)
            == RowsFor(slips, employees[..i], period) + [SlipRow(employees[i], SelectedSlip(slips, employees[i].id, period))]
  {
  }

  /** The loop of `print_all_employees`: a line per employee with the shown
      payslip, and the grand total. */
  method Lines(slips: seq<Payslip>, employees: seq<Employee>, period: Option<string>) returns (rows: seq<SlipRow>, total: real)
    ensures |rows| == |employees|
    ensures forall i :: 0 <= i < |rows| ==> rows[i] == SlipRow(employees[i], SelectedSlip(slips, employees[i].id, period))
    ensures total == GrandTotal(slips, employees, period)
  {
    rows := [];
    total := 0.0;
    for i := 0 to |employees|
      invariant rows == RowsFor(slips, employees[..i], period)
      invariant total == GrandTotal(slips, employees[..i], period)
    {
      GrandTotalStep(slips, employees, i, period);
      RowsForStep(slips, employees, i, period);
      var slip;
      slip, total := AddLine(slips, employees[i].id, period, total);
      rows := rows + [SlipRow(employees[i], slip)];
    }
    assert employees[..|employees|] == employees;
  }

  /** `print_all_employees`: the lines, the period choices and the grand total. */
  method PrintAll(st: PayslipStore, period: Option<string>) returns (rows: seq<SlipRow>, periods: seq<string>, total: real)
    ensures |rows| == |st.employees|
    ensures forall i :: 0 <= i < |rows| ==>
              rows[i] == SlipRow(st.employees[i], SelectedSlip(st.slips, st.employees[i].id, period))
    ensures periods == AvailablePeriods(st.slips)
    ensures total == GrandTotal(st.slips, st.employees, period)
  {
    periods := AvailablePeriods(st.slips);
    rows, total := Lines(st.slips, st.employees, period);
  }
}
