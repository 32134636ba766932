/** Equal monthly instalments and the rounded repayment schedule of `go_bff/demo_seed.go`. */
module Amortisation {
  import opened RealArithmetic

  /** Rounding to the nearest whole number, halves away from zero. */
  function Round(x: real): (n: real)
    ensures -0.5 <= n - x <= 0.5
  {
    if x >= 0.0 then (x + 0.5).Floor as real else -((-x + 0.5).Floor as real)
  }

  function Pow(g: real, n: nat): real {
    if n == 0 then 1.0 else Times(g, Pow(g, n - 1))
  }

  lemma {:induction false} PowGrows(r: real, g: real, n: nat)
    requires r > 0.0 && g == 1.0 + r
    ensures Pow(g, n) >= 1.0 && (n > 0 ==> Pow(g, n) > 1.0)
  {
    if n > 0 {
      PowGrows(r, g, n - 1);
      Scale(g, 1.0, Pow(g, n - 1));
    }
  }

  lemma {:induction false} PowMonotone(r: real, g: real, k: nat, n: nat)
    requires r > 0.0 && g == 1.0 + r && k <= n
    ensures Pow(g, k) <= Pow(g, n)
  {
    if k < n {
      PowMonotone(r, g, k, n - 1);
      PowGrows(r, g, n - 1);
      Scale(Pow(g, n - 1), 1.0, g);
    }
  }

  function MonthlyRate(annualRate: real): real {
    annualRate / 12.0 / 100.0
  }

  /** The exact instalment. */
  function DemoEmi(principal: real, annualRate: real, months: nat): real
    requires months > 0 && annualRate >= 0.0
  {
    var r := MonthlyRate(annualRate);
    if r == 0.0 then principal / months as real
    else
      PowGrows(r, 1.0 + r, months);
      EmiAt(principal, r, Pow(1.0 + r, months))
  }

  function EmiAt(principal: real, r: real, pow: real): real
    requires pow > 1.0
  {
    principal * r * pow / (pow - 1.0)
  }

  function FlatAt(principal: real, left: real, months: real): real
    requires months > 0.0
  {
    principal * left / months
  }

  /** The balance of the unrounded schedule after k instalments. */
  function Exact(principal: real, r: real, months: nat, k: nat): real
    requires months > 0 && r >= 0.0
  {
    if r == 0.0 then FlatAt(principal, (months - k) as real, months as real)
    else
      PowGrows(r, 1.0 + r, months);
      ExactAt(principal, Pow(1.0 + r, months), Pow(1.0 + r, k))
  }

  function ExactAt(principal: real, all: real, paid: real): real
    requires all > 1.0
  {
    principal * (all - paid) / (all - 1.0)
  }

  /** How far rounding can carry the balance after k instalments: ((1+r)^k - 1)/r, or k when r is 0. */
  function Drift(r: real, k: nat): real {
    if k == 0 then 0.0 else Times(1.0 + r, Drift(r, k - 1)) + 1.0
  }

  lemma {:induction false} DriftClosedForm(r: real, g: real, k: nat)
    requires g == 1.0 + r
    ensures Times(r, Drift(r, k)) == Pow(g, k) - 1.0
    ensures r == 0.0 ==> Drift(r, k) == k as real
  {
    if k > 0 {
      DriftClosedForm(r, g, k - 1);
      DriftStep(r, g, Drift(r, k - 1), Pow(g, k - 1));
    }
  }

  lemma DriftStep(r: real, g: real, d: real, p: real)
    requires g == 1.0 + r && Times(r, d) == p - 1.0
    ensures Times(r, Times(g, d) + 1.0) == Times(g, p) - 1.0
    ensures r == 0.0 ==> Times(g, d) == d
  {
    assert r * (g * d + 1.0) == g * (r * d) + r;
  }

  predicate FollowsInstalments(next: real, g: real, balance: real, emi: real) {
    next == Times(g, balance) - emi
  }

  /** The unrounded schedule starts at the principal, follows the instalment recurrence, never goes negative
      and ends at zero. */
  lemma ExactSchedule(principal: real, annualRate: real, r: real, months: nat, k: nat)
    requires months > 0 && annualRate >= 0.0 && r == MonthlyRate(annualRate) && principal >= 0.0 && k <= months
    ensures Exact(principal, r, months, 0) == principal && Exact(principal, r, months, months) == 0.0
    ensures Exact(principal, r, months, k) >= 0.0
    ensures k == 0 || FollowsInstalments(Exact(principal, r, months, k), 1.0 + r, Exact(principal, r, months, k - 1),
                                         DemoEmi(principal, annualRate, months))
  {
    var g := 1.0 + r;
    if r == 0.0 {
      FlatSchedule(principal, g, months as real, (months - k) as real, (months - k) as real + 1.0);
    } else {
      PowGrows(r, g, months);
      PowMonotone(r, g, k, months);
      GrowingSchedule(principal, Pow(g, months), Pow(g, k));
      if k > 0 { GrowingStep(principal, r, g, Pow(g, months), Pow(g, k - 1)); }
    }
  }

  lemma FlatSchedule(principal: real, g: real, n: real, left: real, more: real)
    requires n > 0.0 && principal >= 0.0 && left >= 0.0 && more == left + 1.0 && g == 1.0
    ensures FlatAt(principal, n, n) == principal && FlatAt(principal, 0.0, n) == 0.0
    ensures FlatAt(principal, left, n) >= 0.0
    ensures FlatAt(principal, left, n) == Times(g, FlatAt(principal, more, n)) - principal / n
  {
    var p := Divide(principal, n);
    if p < 0.0 { Scale(n, p, 0.0); }
    ProductSign(p, left);
    Quotient(principal * left, n, p * left);
    Quotient(principal * more, n, p * more);
    Quotient(principal * n, n, principal);
    Quotient(principal * 0.0, n, 0.0);
    Quotient(principal, n, p);
  }

  lemma Quotient(a: real, d: real, q: real)
    requires d > 0.0 && a == d * q
    ensures a / d == q
  {
  }

  lemma GrowingSchedule(principal: real, all: real, paid: real)
    requires all > 1.0 && paid <= all && principal >= 0.0
    ensures ExactAt(principal, all, 1.0) == principal && ExactAt(principal, all, all) == 0.0
    ensures ExactAt(principal, all, paid) >= 0.0
  {
    var d := all - 1.0;
    Quotient(principal * (all - 1.0), d, principal);
    Quotient(principal * (all - all), d, 0.0);
    ProductSign(principal, all - paid);
    NonNegativeQuotient(principal * (all - paid), d);
  }

  lemma NonNegativeQuotient(a: real, d: real)
    requires a >= 0.0 && d > 0.0
    ensures a / d >= 0.0
  {
    var q := Divide(a, d);
    Quotient(a, d, q);
    if q < 0.0 { Scale(d, q, 0.0); }
  }

  lemma GrowingStep(principal: real, r: real, g: real, all: real, paid: real)
    requires all > 1.0 && g == 1.0 + r
    ensures ExactAt(principal, all, Times(g, paid))
       == Times(g, ExactAt(principal, all, paid)) - EmiAt(principal, r, all)
  {
    var d := all - 1.0;
    var q := Divide(principal, d);
    Quotient(principal * (all - g * paid), d, q * (all - g * paid));
    Quotient(principal * (all - paid), d, q * (all - paid));
    Quotient(principal * r * all, d, q * r * all);
    assert q * (all - g * paid) == g * (q * (all - paid)) - q * r * all;
  }

  lemma EmiNonNegative(principal: real, annualRate: real, months: nat)
    requires months > 0 && annualRate >= 0.0 && principal >= 0.0
    ensures Round(DemoEmi(principal, annualRate, months)) >= 0.0
  {
    var r := MonthlyRate(annualRate);
    if r == 0.0 {
      NonNegativeQuotient(principal, months as real);
    } else {
      PowGrows(r, 1.0 + r, months);
      EmiAtNonNegative(principal, r, Pow(1.0 + r, months));
    }
  }

  lemma EmiAtNonNegative(principal: real, r: real, pow: real)
    requires principal >= 0.0 && r >= 0.0 && pow > 1.0
    ensures EmiAt(principal, r, pow) >= 0.0
  {
    ProductSign(principal, r);
    ProductSign(principal * r, pow);
    NonNegativeQuotient(principal * r * pow, pow - 1.0);
  }

  // ---------- the rounded schedule ----------

  datatype Row = Row(interest: real, principalComponent: real, balanceAfter: real)

  function NextRow(balance: real, emi: real, r: real): Row {
    var interest := Round(Times(balance, r));
    var component := emi - interest;
    Row(interest, component, if balance - component < 0.0 then 0.0 else balance - component)
  }

  /** The balance after k instalments. */
  function Balance(principal: real, emi: real, r: real, k: nat): real {
    if k == 0 then principal else NextRow(Balance(principal, emi, r, k - 1), emi, r).balanceAfter
  }

  /** The first k rows of the schedule. */
  function FirstRows(principal: real, emi: real, r: real, k: nat): (rows: seq<Row>)
    ensures |rows| == k
  {
    if k == 0 then [] else FirstRows(principal, emi, r, k - 1) + [NextRow(Balance(principal, emi, r, k - 1), emi, r)]
  }

  lemma {:induction false} RowOfSchedule(principal: real, emi: real, r: real, n: nat, k: nat)
    requires k < n
    ensures FirstRows(principal, emi, r, n)[k] == NextRow(Balance(principal, emi, r, k), emi, r)
    ensures FirstRows(principal, emi, r, n)[k].balanceAfter == Balance(principal, emi, r, k + 1)
  {
    if k < n - 1 { RowOfSchedule(principal, emi, r, n - 1, k); }
  }

  /** The principal components of the first k instalments. */
  function Repaid(principal: real, emi: real, r: real, k: nat): real {
    if k == 0 then 0.0
    else Repaid(principal, emi, r, k - 1) + NextRow(Balance(principal, emi, r, k - 1), emi, r).principalComponent
  }

  /** One instalment: the error grows by the factor 1 + r and two half-unit roundings, and clamping at zero
      cannot increase it. */
  lemma RowError(balance: real, emi: real, exactEmi: real, r: real, g: real, exact: real, exact': real, drift: real)
    requires balance >= 0.0 && r >= 0.0 && g == 1.0 + r && emi == Round(exactEmi)
    requires FollowsInstalments(exact', g, exact, exactEmi) && exact' >= 0.0
    requires Within(balance, exact, drift)
    ensures NextRow(balance, emi, r).balanceAfter >= 0.0
    ensures Within(NextRow(balance, emi, r).balanceAfter, exact', Times(g, drift) + 1.0)
  {
    ScaledError(g, balance, exact, drift);
    OnePlus(balance, r, g);
    RoundedRow(balance, Times(balance, r), Round(Times(balance, r)), emi, exactEmi,
               Times(g, balance), Times(g, exact), Times(g, drift), exact');
  }

  lemma OnePlus(balance: real, r: real, g: real)
    requires g == 1.0 + r
    ensures Times(g, balance) == balance + Times(balance, r)
  {
  }

  lemma RoundedRow(balance: real, accrued: real, interest: real, emi: real, exactEmi: real,
                   grown: real, exactGrown: real, error: real, exact': real)
    requires -0.5 <= interest - accrued <= 0.5 && -0.5 <= emi - exactEmi <= 0.5
    requires grown == balance + accrued && exact' == exactGrown - exactEmi && exact' >= 0.0
    requires Within(grown, exactGrown, error)
    ensures Within(balance - (emi - interest), exact', error + 1.0)
    ensures balance - (emi - interest) < 0.0 ==> Within(0.0, exact', error + 1.0)
  {
  }

  lemma ScaledError(g: real, balance: real, exact: real, drift: real)
    requires g >= 0.0 && Within(balance, exact, drift)
    ensures Within(Times(g, balance), Times(g, exact), Times(g, drift))
  {
    Scale(g, balance, exact + drift);
    Scale(g, exact, balance + drift);
  }

  /** After every instalment the rounded balance is within ((1+r)^k - 1)/r of the exact one; after the last
      instalment it is therefore at most ((1+r)^N - 1)/r. */
  lemma {:induction false} ScheduleLandsNearZero(principal: real, annualRate: real, r: real, tenure: nat, k: nat)
    requires tenure > 0 && annualRate >= 0.0 && principal >= 0.0 && k <= tenure && r == MonthlyRate(annualRate)
    ensures var balance := Balance(principal, Round(DemoEmi(principal, annualRate, tenure)), r, k);
            balance >= 0.0 && Within(balance, Exact(principal, r, tenure, k), Drift(r, k))
            && (k == tenure ==> balance <= Drift(r, tenure))
  {
    ExactSchedule(principal, annualRate, r, tenure, k);
    if k > 0 {
      ScheduleLandsNearZero(principal, annualRate, r, tenure, k - 1);
      var exactEmi := DemoEmi(principal, annualRate, tenure);
      RowError(Balance(principal, Round(exactEmi), r, k - 1), Round(exactEmi), exactEmi, r, 1.0 + r,
               Exact(principal, r, tenure, k - 1), Exact(principal, r, tenure, k), Drift(r, k - 1));
    }
  }

  /** While the balance is positive no instalment has been clamped, and the principal components add up to
      exactly what has been repaid. */
  lemma {:induction false} RepaidIsTheDifference(principal: real, emi: real, r: real, k: nat)
    requires principal >= 0.0 && emi >= 0.0
    ensures Balance(principal, emi, r, k) >= 0.0
    ensures Balance(principal, emi, r, k) > 0.0 ==>
        Repaid(principal, emi, r, k) == principal - Balance(principal, emi, r, k)
  {
    if k > 0 {
      RepaidIsTheDifference(principal, emi, r, k - 1);
      if Balance(principal, emi, r, k - 1) == 0.0 { assert Times(0.0, r) == 0.0; }
    }
  }

  ghost predicate LandsNearZero(rows: seq<Row>, principal: real, r: real, tenure: nat)
    requires |rows| == tenure > 0 && r >= 0.0
  {
    && (forall k :: 0 <= k < tenure ==> rows[k].balanceAfter >= 0.0)
    && (forall k :: 0 <= k < tenure ==>
        Within(rows[k].balanceAfter, Exact(principal, r, tenure, k + 1), Drift(r, k + 1)))
    && rows[tenure - 1].balanceAfter <= Drift(r, tenure)
  }

  /** How many instalments are marked paid: the aged ones, without the last of them when it is overdue. */
  function PaidCount(tenure: nat, agedMonths: nat, lastIsOverdue: bool): nat {
    if agedMonths > tenure then tenure
    else if lastIsOverdue && agedMonths > 0 then agedMonths - 1
    else agedMonths
  }

  /** The amount is what the balance has come down by after the paid instalments, if a balance remains. */
  predicate RepaysDifference(rows: seq<Row>, principal: real, paid: nat, amount: real) {
    0 < paid <= |rows| && rows[paid - 1].balanceAfter > 0.0 ==> amount == principal - rows[paid - 1].balanceAfter
  }

  method Instalment(bal: real, emi: real, r: real) returns (row: Row)
    ensures row == NextRow(bal, emi, r)
  {
    var interest := Round(Times(bal, r));
    var component := emi - interest;
    var after := bal - component;
    if after < 0.0 { after := 0.0; }
    row := Row(interest, component, after);
  }

  /** The schedule loop. Every row is close to the exact schedule, and the principal recorded as paid is what the
      balance has come down by, as long as that balance is positive. */
  method Schedule(principal: real, annualRate: real, tenure: nat, agedMonths: nat, lastIsOverdue: bool)
    returns (rows: seq<Row>, paidPrincipal: real)
    requires tenure > 0 && annualRate >= 0.0 && principal >= 0.0
    ensures rows == FirstRows(principal, Round(DemoEmi(principal, annualRate, tenure)), MonthlyRate(annualRate), tenure)
    ensures LandsNearZero(rows, principal, MonthlyRate(annualRate), tenure)
    ensures RepaysDifference(rows, principal, PaidCount(tenure, agedMonths, lastIsOverdue), paidPrincipal)
  {
    var emi := Round(DemoEmi(principal, annualRate, tenure));
    var r := MonthlyRate(annualRate);
    rows, paidPrincipal := Instalments(principal, emi, r, tenure, agedMonths, lastIsOverdue);
    RowsLandNearZero(rows, principal, annualRate, r, tenure, emi);
    EmiNonNegative(principal, annualRate, tenure);
    RowsRepay(rows, principal, emi, r, tenure, PaidCount(tenure, agedMonths, lastIsOverdue));
  }

  lemma RowsRepay(rows: seq<Row>, principal: real, emi: real, r: real, tenure: nat, paid: nat)
    requires rows == FirstRows(principal, emi, r, tenure) && principal >= 0.0 && emi >= 0.0 && paid <= tenure
    ensures RepaysDifference(rows, principal, paid, Repaid(principal, emi, r, paid))
  {
    RepaidIsTheDifference(principal, emi, r, paid);
    if paid > 0 { RowOfSchedule(principal, emi, r, tenure, paid - 1); }
  }

  lemma NextInstalment(principal: real, emi: real, r: real, k: nat, next: nat, row: Row)
    requires next == k + 1 && row == NextRow(Balance(principal, emi, r, k), emi, r)
    ensures FirstRows(principal, emi, r, next) == FirstRows(principal, emi, r, k) + [row]
    ensures Balance(principal, emi, r, next) == row.balanceAfter
    ensures Repaid(principal, emi, r, next) == Repaid(principal, emi, r, k) + row.principalComponent
  {
  }

  /** The loop over the months. */
  method Instalments(principal: real, emi: real, r: real, tenure: nat, agedMonths: nat, lastIsOverdue: bool)
    returns (rows: seq<Row>, paidPrincipal: real)
    ensures rows == FirstRows(principal, emi, r, tenure)
    ensures paidPrincipal == Repaid(principal, emi, r, PaidCount(tenure, agedMonths, lastIsOverdue))
  {
    var bal := principal;
    ghost var paid := PaidCount(tenure, agedMonths, lastIsOverdue);
    rows, paidPrincipal := [], 0.0;
    for n := 1 to tenure + 1
      invariant rows == FirstRows(principal, emi, r, n - 1) && bal == Balance(principal, emi, r, n - 1)
      invariant paidPrincipal == Repaid(principal, emi, r, if n - 1 <= paid then n - 1 else paid)
    {
      var row := Instalment(bal, emi, r);
      NextInstalment(principal, emi, r, n - 1, n, row);
      bal := row.balanceAfter;
      if n <= agedMonths && !(lastIsOverdue && n == agedMonths) {
        paidPrincipal := paidPrincipal + row.principalComponent;
      }
      rows := rows + [row];
    }
  }

  lemma RowsLandNearZero(rows: seq<Row>, principal: real, annualRate: real, r: real, tenure: nat, emi: real)
    requires tenure > 0 && annualRate >= 0.0 && principal >= 0.0 && r == MonthlyRate(annualRate)
    requires emi == Round(DemoEmi(principal, annualRate, tenure)) && rows == FirstRows(principal, emi, r, tenure)
    ensures LandsNearZero(rows, principal, r, tenure)
  {
    forall k | 0 <= k < tenure
      ensures rows[k].balanceAfter >= 0.0
      ensures Within(rows[k].balanceAfter, Exact(principal, r, tenure, k + 1), Drift(r, k + 1))
    {
      RowOfSchedule(principal, emi, r, tenure, k);
      ScheduleLandsNearZero(principal, annualRate, r, tenure, k + 1);
    }
    RowOfSchedule(principal, emi, r, tenure, tenure - 1);
    ScheduleLandsNearZero(principal, annualRate, r, tenure, tenure);
  }
}
