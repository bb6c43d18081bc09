/** Payroll records: employees and their payslips, each payslip holding six
    earnings and six deductions whose sums and difference make the net pay.
    Amounts are exact; identifiers drawn from uuid4 are natural numbers. */
module PayslipModel {

  /** An employee (`payslip.Employee`). */
  datatype Employee = Employee(id: nat, firstName: string, lastName: string, position: string, active: bool)

  /** The six earning columns, each 0 by default. */
  datatype Earnings = Earnings(regular: real, holiday: real, overtime: real,
                               allowances: real, thirteenth: real, other: real)

  /** The six deduction columns, each 0 by default. */
  datatype Deductions = Deductions(sss: real, philHealth: real, pagIbig: real,
                                   tax: real, cashAdvance: real, other: real)

  /** A payslip of one employee for one pay period and pay date (a day number). */
  datatype Payslip = Payslip(id: nat, employee: nat, payPeriod: string, payDate: int,
                             createdAt: int, earnings: Earnings, deductions: Deductions)

  const NoEarnings := Earnings(0.0, 0.0, 0.0, 0.0, 0.0, 0.0)
  const NoDeductions := Deductions(0.0, 0.0, 0.0, 0.0, 0.0, 0.0)

  /** The earning columns and the deduction columns, one name each. */
  datatype EarningKind = Regular | Holiday | Overtime | Allowances | Thirteenth | OtherEarning
  datatype DeductionKind = Sss | PhilHealth | PagIbig | Tax | CashAdvance | OtherDeduction

  const EarningKinds: seq<EarningKind> := [Regular, Holiday, Overtime, Allowances, Thirteenth, OtherEarning]
  const DeductionKinds: seq<DeductionKind> := [Sss, PhilHealth, PagIbig, Tax, CashAdvance, OtherDeduction]

  function EarningOf(e: Earnings, k: EarningKind): real {
    match k
    case Regular => e.regular
    case Holiday => e.holiday
    case Overtime => e.overtime
    case Allowances => e.allowances
    case Thirteenth => e.thirteenth
    case OtherEarning => e.other
  }

  function DeductionOf(d: Deductions, k: DeductionKind): real {
    match k
    case Sss => d.sss
    case PhilHealth => d.philHealth
    case PagIbig => d.pagIbig
    case Tax => d.tax
    case CashAdvance => d.cashAdvance
    case OtherDeduction => d.other
  }

  /** The earnings with column `k` set to `v` (`setattr`). */
  function WithEarning(e: Earnings, k: EarningKind, v: real): (r: Earnings)
    ensures EarningOf(r, k) == v
    ensures forall j: EarningKind :: j != k ==> EarningOf(r, j) == EarningOf(e, j)
  {
    match k
    case Regular => e.(regular := v)
    case Holiday => e.(holiday := v)
    case Overtime => e.(overtime := v)
    case Allowances => e.(allowances := v)
    case Thirteenth => e.(thirteenth := v)
    case OtherEarning => e.(other := v)
  }

  function WithDeduction(d: Deductions, k: DeductionKind, v: real): (r: Deductions)
    ensures DeductionOf(r, k) == v
    ensures forall j: DeductionKind :: j != k ==> DeductionOf(r, j) == DeductionOf(d, j)
  {
    match k
    case Sss => d.(sss := v)
    case PhilHealth => d.(philHealth := v)
    case PagIbig => d.(pagIbig := v)
    case Tax => d.(tax := v)
    case CashAdvance => d.(cashAdvance := v)
    case OtherDeduction => d.(other := v)
  }

  /** `Payslip.total_earnings`. */
  function TotalEarnings(p: Payslip): real {
    p.earnings.regular + p.earnings.holiday + p.earnings.overtime
    + p.earnings.allowances + p.earnings.thirteenth + p.earnings.other
  }

  /** `Payslip.total_deductions`. */
  function TotalDeductions(p: Payslip): real {
    p.deductions.sss + p.deductions.philHealth + p.deductions.pagIbig
    + p.deductions.tax + p.deductions.cashAdvance + p.deductions.other
  }

  /** `Payslip.net_pay`. */
  function NetPay(p: Payslip): real {
    TotalEarnings(p) - TotalDeductions(p)
  }

  /** The sum of the earning columns named in `ks`. */
  function SumEarnings(e: Earnings, ks: seq<EarningKind>): real {
    if ks == [] then 0.0 else SumEarnings(e, ks[..|ks| - 1]) + EarningOf(e, ks[|ks| - 1])
  }

  function SumDeductions(d: Deductions, ks: seq<DeductionKind>): real {
    if ks == [] then 0.0 else SumDeductions(d, ks[..|ks| - 1]) + DeductionOf(d, ks[|ks| - 1])
  }

  /** The totals are the sums over every column of their kind, each counted
      once, and the net pay is their difference. */
  lemma TotalsAreColumnSums(p: Payslip)
    ensures TotalEarnings(p) == SumEarnings(p.earnings, EarningKinds)
    ensures TotalDeductions(p) == SumDeductions(p.deductions, DeductionKinds)
    ensures NetPay(p) == SumEarnings(p.earnings, EarningKinds) - SumDeductions(p.deductions, DeductionKinds)
  {
    var e, d := p.earnings, p.deductions;
    var ek, dk := EarningKinds, DeductionKinds;
    assert SumEarnings(e, ek[..1]) == e.regular by { assert ek[..1][..0] == []; }
    assert SumEarnings(e, ek[..2]) == e.regular + e.holiday by { assert ek[..2][..1] == ek[..1]; }
    assert SumEarnings(e, ek[..3]) == e.regular + e.holiday + e.overtime by { assert ek[..3][..2] == ek[..2]; }
    assert SumEarnings(e, ek[..4]) == e.regular + e.holiday + e.overtime + e.allowances by {
      assert ek[..4][..3] == ek[..3];
    }
    assert SumEarnings(e, ek[..5]) == e.regular + e.holiday + e.overtime + e.allowances + e.thirteenth by {
      assert ek[..5][..4] == ek[..4];
    }
    assert ek[..6][..5] == ek[..5] && ek[..6] == ek;
    assert SumDeductions(d, dk[..1]) == d.sss by { assert dk[..1][..0] == []; }
    assert SumDeductions(d, dk[..2]) == d.sss + d.philHealth by { assert dk[..2][..1] == dk[..1]; }
    assert SumDeductions(d, dk[..3]) == d.sss + d.philHealth + d.pagIbig by { assert dk[..3][..2] == dk[..2]; }
    assert SumDeductions(d, dk[..4]) == d.sss + d.philHealth + d.pagIbig + d.tax by {
      assert dk[..4][..3] == dk[..3];
    }
    assert SumDeductions(d, dk[..5]) == d.sss + d.philHealth + d.pagIbig + d.tax + d.cashAdvance by {
      assert dk[..5][..4] == dk[..4];
    }
    assert dk[..6][..5] == dk[..5] && dk[..6] == dk;
  }

  /** A payslip left at the column defaults shows nothing earned, nothing
      deducted and no net pay. */
  lemma DefaultPayslipIsZero(id: nat, employee: nat, period: string, payDate: int, createdAt: int)
    ensures var p := Payslip(id, employee, period, payDate, createdAt, NoEarnings, NoDeductions);
            TotalEarnings(p) == 0.0 && TotalDeductions(p) == 0.0 && NetPay(p) == 0.0
  {
  }

  /** Raising one earning column by `d` raises the net pay by exactly `d`. */
  lemma RaiseEarning(p: Payslip, k: EarningKind, d: real)
    ensures var q := p.(earnings := WithEarning(p.earnings, k, EarningOf(p.earnings, k) + d));
            TotalEarnings(q) == TotalEarnings(p) + d && TotalDeductions(q) == TotalDeductions(p)
            && NetPay(q) == NetPay(p) + d
  {
  }

  /** Raising one deduction column by `d` lowers the net pay by exactly `d`. */
  lemma RaiseDeduction(p: Payslip, k: DeductionKind, d: real)
    ensures var q := p.(deductions := WithDeduction(p.deductions, k, DeductionOf(p.deductions, k) + d));
            TotalDeductions(q) == TotalDeductions(p) + d && TotalEarnings(q) == TotalEarnings(p)
            && NetPay(q) == NetPay(p) - d
  {
  }
}
