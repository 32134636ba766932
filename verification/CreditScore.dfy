/** The branch-adjusted credit decision of `hq_server.py`, on the path that scores by the calibrated heuristic. */
module CreditScore {
  import opened RealArithmetic
  import opened Rounding

  datatype Product = HomeLoan | BusinessLoan | PersonalLoan | Microfinance | Agricultural

  /** The loan type a branch names; anything outside the rate table gets the default band. */
  datatype LoanType = Listed(product: Product) | Unlisted

  datatype Applicant = Applicant(
    income: real, loan: real, cibil: int, dti: real, utilisation: real, openLoans: int,
    collateral: real, guarantor: bool, digital: real, spending: real)

  datatype Params = Params(
    loanType: LoanType, maxDti: real, collateralWeight: real, regional: real, minCibil: int, prioritiseDigital: bool)

  datatype Grade = A | B | C | D | F

  /** The rate is in hundredths of a percent. */
  datatype Decision = Decision(
    hqGrade: Grade, grade: Grade, probability: real, rate: int, maxLoan: real, eligible: set<Product>)

  /** A zero regional factor makes the division fail. */
  datatype Outcome = Decided(decision: Decision) | DivisionByZero

  // ---------- the heuristic score ----------

  function LoanToIncome(loan: real, income: real): real {
    loan / Max(income * 12.0, 1.0)
  }

  function Weighted(cibil: real, dti: real, utilisation: real, loans: real, lti: real, digital: real,
                    spending: real): real {
    cibil * 0.30 + dti * 0.20 + utilisation * 0.15 + loans * 0.10 + lti * 0.10 + digital * 0.08 + spending * 0.07
  }

  function LoanTerm(loan: real, income: real): real {
    Min(LoanToIncome(loan, income) / 10.0, 1.0)
  }

  function WithLoanTerm(a: Applicant, loanTerm: real): real {
    Weighted(Max(0.0, (700 - a.cibil) as real / 400.0), Min(a.dti / 0.8, 1.0), Min(a.utilisation / 0.9, 1.0),
             Min(a.openLoans as real / 5.0, 1.0), loanTerm,
             Max(0.0, (50.0 - a.digital) / 100.0), Max(0.0, (60.0 - a.spending) / 100.0))
  }

  function RiskTerms(a: Applicant): real {
    WithLoanTerm(a, LoanTerm(a.loan, a.income))
  }

  function Reliefs(a: Applicant): real {
    (if a.collateral >= a.loan * 0.5 then 0.08 else 0.0) + (if a.guarantor then 0.06 else 0.0)
  }

  predicate Bounded(p: real) { 0.02 <= p <= 0.97 }

  function Clamp(x: real): (p: real)
    ensures Bounded(p)
  {
    Max(0.02, Min(0.97, x))
  }

  function RawProbability(a: Applicant): (p: real)
    ensures Bounded(p)
  {
    Clamp(RiskTerms(a) - Reliefs(a))
  }

  // ---------- the branch's adjustments, in order ----------

  function DtiPremium(x: real, dti: real, maxDti: real): real {
    if dti > maxDti then Min(0.97, x + (dti - maxDti) * 0.4) else x
  }

  function Coverage(collateral: real, loan: real): real {
    collateral / Max(loan, 1.0)
  }

  function CollateralRelief(x: real, coverage: real, weight: real): real {
    if coverage >= 0.5 && weight > 0.3 then Max(0.02, x - Times(coverage, weight) * 0.12) else x
  }

  function CibilPenalty(x: real, cibil: int, minCibil: int): real {
    if cibil < minCibil then Min(0.97, x + 0.20) else x
  }

  function Regional(x: real, factor: real): real
    requires factor != 0.0
  {
    Clamp(x / factor)
  }

  function DigitalBoost(x: real, prioritise: bool, digital: real): real {
    if prioritise && digital >= 70.0 then Max(0.02, x - 0.04) else x
  }

  function BeforeRegion(x: real, a: Applicant, p: Params): real {
    CibilPenalty(CollateralRelief(DtiPremium(x, a.dti, p.maxDti), Coverage(a.collateral, a.loan), p.collateralWeight),
                 a.cibil, p.minCibil)
  }

  function Adjusted(a: Applicant, p: Params): real
    requires p.regional != 0.0
  {
    DigitalBoost(Regional(BeforeRegion(RawProbability(a), a, p), p.regional), p.prioritiseDigital, a.digital)
  }

  // ---------- the decision ----------

  function GradeOf(p: real): Grade {
    if p < 0.10 then A else if p < 0.22 then B else if p < 0.40 then C else if p < 0.60 then D else F
  }

  /** A is 0, F is 4. */
  function Rank(g: Grade): nat {
    match g case A => 0 case B => 1 case C => 2 case D => 3 case F => 4
  }

  /** The band of a loan type, in hundredths of a percent. */
  function Band(t: LoanType): (int, int) {
    match t
    case Listed(HomeLoan) => (750, 1100)
    case Listed(BusinessLoan) => (1050, 1450)
    case Listed(PersonalLoan) => (1350, 1850)
    case Listed(Microfinance) => (1700, 2200)
    case Listed(Agricultural) => (700, 950)
    case Unlisted => (1000, 1600)
  }

  function Interpolated(lo: int, hi: int, p: real): real {
    lo as real + Times((hi - lo) as real, p)
  }

  function RateFor(t: LoanType, p: real): int {
    RoundEven(Interpolated(Band(t).0, Band(t).1, p))
  }

  function Multiplier(g: Grade): real {
    match g case A => 80.0 case B => 60.0 case C => 45.0 case D => 30.0 case F => 0.0
  }

  function Eligible(g: Grade): set<Product> {
    match g
    case A => {HomeLoan, BusinessLoan, PersonalLoan, Agricultural}
    case B => {HomeLoan, BusinessLoan, PersonalLoan}
    case C => {PersonalLoan, Agricultural, Microfinance}
    case D => {Microfinance}
    case F => {}
  }

  function DecisionFor(a: Applicant, t: LoanType, raw: real, adjusted: real): Decision {
    var g := GradeOf(adjusted);
    Decision(GradeOf(raw), g, adjusted, RateFor(t, adjusted), a.income * Multiplier(g), Eligible(g))
  }

  function Decide(a: Applicant, p: Params): Outcome {
    if p.regional == 0.0 then DivisionByZero
    else Decided(DecisionFor(a, p.loanType, RawProbability(a), Adjusted(a, p)))
  }

  /** The heuristic, statement by statement. */
  method HeuristicScore(a: Applicant) returns (raw: real)
    ensures raw == RawProbability(a)
  {
    var score := 0.0;
    score := score + Max(0.0, (700 - a.cibil) as real / 400.0) * 0.30;
    score := score + Min(a.dti / 0.8, 1.0) * 0.20;
    score := score + Min(a.utilisation / 0.9, 1.0) * 0.15;
    score := score + Min(a.openLoans as real / 5.0, 1.0) * 0.10;
    var lti := LoanToIncome(a.loan, a.income);
    score := score + Min(lti / 10.0, 1.0) * 0.10;
    score := score + Max(0.0, (50.0 - a.digital) / 100.0) * 0.08;
    score := score + Max(0.0, (60.0 - a.spending) / 100.0) * 0.07;
    assert score == RiskTerms(a);
    if a.collateral >= a.loan * 0.5 {
      score := score - 0.08;
    }
    if a.guarantor {
      score := score - 0.06;
    }
    assert score == RiskTerms(a) - Reliefs(a);
    raw := Max(0.02, Min(0.97, score));
  }

  /** The whole decision, statement by statement. */
  method Assess(a: Applicant, p: Params) returns (o: Outcome)
    ensures o == Decide(a, p)
  {
    var raw := HeuristicScore(a);
    var adjusted := raw;
    if a.dti > p.maxDti {
      adjusted := Min(0.97, adjusted + (a.dti - p.maxDti) * 0.4);
    }
    assert adjusted == DtiPremium(raw, a.dti, p.maxDti);
    var coverage := Coverage(a.collateral, a.loan);
    ghost var withPremium := adjusted;
    if coverage >= 0.5 && p.collateralWeight > 0.3 {
      var relief := Times(coverage, p.collateralWeight) * 0.12;
      adjusted := Max(0.02, adjusted - relief);
    }
    assert adjusted == CollateralRelief(withPremium, coverage, p.collateralWeight);
    if a.cibil < p.minCibil {
      adjusted := Min(0.97, adjusted + 0.20);
    }
    assert adjusted == BeforeRegion(raw, a, p);
    if p.regional == 0.0 {
      return DivisionByZero;
    }
    adjusted := adjusted / p.regional;
    adjusted := Max(0.02, Min(0.97, adjusted));
    assert adjusted == Regional(BeforeRegion(raw, a, p), p.regional);
    if p.prioritiseDigital && a.digital >= 70.0 {
      adjusted := Max(0.02, adjusted - 0.04);
    }
    assert adjusted == Adjusted(a, p);
    o := Decided(DecisionFor(a, p.loanType, raw, adjusted));
  }

  // ---------- monotonicity ----------

  /** Every feature is at least as good; a higher income counts as good where the loan is not negative. */
  predicate Better(a: Applicant, b: Applicant) {
    && a.loan <= b.loan && (a.income == b.income || (a.income >= b.income && b.loan >= 0.0))
    && a.cibil >= b.cibil && a.dti <= b.dti && a.utilisation <= b.utilisation
    && a.openLoans <= b.openLoans && a.collateral >= b.collateral && (b.guarantor ==> a.guarantor)
    && a.digital >= b.digital && a.spending >= b.spending
  }

  /** Every knob of the branch is at least as lenient. */
  predicate Lenient(p: Params, q: Params) {
    && p.loanType == q.loanType && p.maxDti >= q.maxDti && p.collateralWeight >= q.collateralWeight
    && p.regional >= q.regional && p.minCibil <= q.minCibil && (q.prioritiseDigital ==> p.prioritiseDigital)
  }

  /** Dividing by a larger positive number, or a smaller non-negative one. */
  lemma Quotients(x: real, y: real, d: real, e: real)
    requires e > 0.0 && x <= y && (d == e || (d >= e && y >= 0.0))
    ensures x / d <= y / e
  {
    var u, v := x / d, y / e;
    assert d * u == x && e * v == y;
    if u > v {
      assert v >= 0.0 by {
        if v < 0.0 { Scale(e, v, 0.0); }
      }
      Scale(v, e, d);
      Scale(d, v, u);
    }
  }

  lemma LoanToIncomeMonotone(loan: real, bigger: real, income: real, smaller: real)
    requires loan <= bigger && (income == smaller || (income >= smaller && bigger >= 0.0))
    ensures LoanTerm(loan, income) <= LoanTerm(bigger, smaller)
  {
    Quotients(loan, bigger, Max(income * 12.0, 1.0), Max(smaller * 12.0, 1.0));
  }

  lemma RiskTermsMonotone(a: Applicant, b: Applicant)
    requires Better(a, b)
    ensures RiskTerms(a) <= RiskTerms(b)
  {
    var x, y := LoanTerm(a.loan, a.income), LoanTerm(b.loan, b.income);
    LoanToIncomeMonotone(a.loan, b.loan, a.income, b.income);
    OtherTermsMonotone(a, b, x, y);
  }

  /** The terms that do not depend on the loan. */
  lemma OtherTermsMonotone(a: Applicant, b: Applicant, x: real, y: real)
    requires Better(a, b) && x <= y
    ensures WithLoanTerm(a, x) <= WithLoanTerm(b, y)
  {
    FloorMonotone((700 - a.cibil) as real / 400.0, (700 - b.cibil) as real / 400.0);
    CapMonotone(a.dti / 0.8, b.dti / 0.8);
    CapMonotone(a.utilisation / 0.9, b.utilisation / 0.9);
    CapMonotone(a.openLoans as real / 5.0, b.openLoans as real / 5.0);
    FloorMonotone((50.0 - a.digital) / 100.0, (50.0 - b.digital) / 100.0);
    FloorMonotone((60.0 - a.spending) / 100.0, (60.0 - b.spending) / 100.0);
  }

  lemma CapMonotone(x: real, y: real)
    requires x <= y
    ensures Min(x, 1.0) <= Min(y, 1.0)
  {
  }

  lemma FloorMonotone(x: real, y: real)
    requires x <= y
    ensures Max(0.0, x) <= Max(0.0, y)
  {
  }

  lemma RawMonotone(a: Applicant, b: Applicant)
    requires Better(a, b)
    ensures RawProbability(a) <= RawProbability(b)
  {
    RiskTermsMonotone(a, b);
    assert Reliefs(a) >= Reliefs(b);
  }

  lemma PremiumMonotone(x: real, y: real, dti: real, worse: real, max: real, stricter: real)
    requires Bounded(x) && Bounded(y) && x <= y && dti <= worse && max >= stricter
    ensures Bounded(DtiPremium(x, dti, max)) && Bounded(DtiPremium(y, worse, stricter))
    ensures DtiPremium(x, dti, max) <= DtiPremium(y, worse, stricter)
  {
  }

  lemma CoverageMonotone(collateral: real, less: real, loan: real, bigger: real)
    requires collateral >= less && loan <= bigger && Coverage(less, bigger) >= 0.5
    ensures Coverage(collateral, loan) >= Coverage(less, bigger)
  {
    var d, e := Max(loan, 1.0), Max(bigger, 1.0);
    assert e * Coverage(less, bigger) == less;
    ProductSign(e, Coverage(less, bigger));
    Quotients(less, collateral, e, d);
  }

  lemma ReliefMonotone(x: real, y: real, coverage: real, lower: real, weight: real, lighter: real)
    requires Bounded(x) && Bounded(y) && x <= y && weight >= lighter && (lower >= 0.5 ==> coverage >= lower)
    ensures Bounded(CollateralRelief(x, coverage, weight)) && Bounded(CollateralRelief(y, lower, lighter))
    ensures CollateralRelief(x, coverage, weight) <= CollateralRelief(y, lower, lighter)
  {
    if coverage >= 0.5 && weight > 0.3 { ProductSign(coverage, weight); }
    if lower >= 0.5 && lighter > 0.3 {
      ProductSign(lower, lighter);
      Scale(weight, lower, coverage);
      Scale(lower, lighter, weight);
      assert Times(coverage, weight) >= Times(lower, lighter);
    }
  }

  lemma PenaltyMonotone(x: real, y: real, cibil: int, worse: int, min: int, stricter: int)
    requires Bounded(x) && Bounded(y) && x <= y && cibil >= worse && min <= stricter
    ensures Bounded(CibilPenalty(x, cibil, min)) && Bounded(CibilPenalty(y, worse, stricter))
    ensures CibilPenalty(x, cibil, min) <= CibilPenalty(y, worse, stricter)
  {
  }

  lemma BeforeRegionMonotone(x: real, y: real, a: Applicant, b: Applicant, p: Params, q: Params)
    requires Bounded(x) && Bounded(y) && x <= y && Better(a, b) && Lenient(p, q)
    ensures Bounded(BeforeRegion(x, a, p)) && Bounded(BeforeRegion(y, b, q))
    ensures BeforeRegion(x, a, p) <= BeforeRegion(y, b, q)
  {
    var x1, y1 := DtiPremium(x, a.dti, p.maxDti), DtiPremium(y, b.dti, q.maxDti);
    PremiumMonotone(x, y, a.dti, b.dti, p.maxDti, q.maxDti);
    var c, e := Coverage(a.collateral, a.loan), Coverage(b.collateral, b.loan);
    if e >= 0.5 { CoverageMonotone(a.collateral, b.collateral, a.loan, b.loan); }
    ReliefMonotone(x1, y1, c, e, p.collateralWeight, q.collateralWeight);
    PenaltyMonotone(CollateralRelief(x1, c, p.collateralWeight), CollateralRelief(y1, e, q.collateralWeight),
                    a.cibil, b.cibil, p.minCibil, q.minCibil);
  }

  lemma RegionalMonotone(x: real, y: real, factor: real, lower: real)
    requires Bounded(y) && x <= y && factor >= lower > 0.0
    ensures Regional(x, factor) <= Regional(y, lower)
  {
    Quotients(x, y, factor, lower);
  }

  /** A better applicant at a more lenient branch never gets a higher default probability. */
  lemma AdjustedMonotone(a: Applicant, b: Applicant, p: Params, q: Params)
    requires Better(a, b) && Lenient(p, q) && q.regional > 0.0
    ensures 0.02 <= Adjusted(a, p) <= Adjusted(b, q) <= 0.97
  {
    RawMonotone(a, b);
    var x, y := RawProbability(a), RawProbability(b);
    BeforeRegionMonotone(x, y, a, b, p, q);
    RegionalMonotone(BeforeRegion(x, a, p), BeforeRegion(y, b, q), p.regional, q.regional);
  }

  lemma InterpolatedMonotone(lo: int, hi: int, p: real, q: real)
    requires lo <= hi && p <= q
    ensures Interpolated(lo, hi, p) <= Interpolated(lo, hi, q)
  {
    Scale((hi - lo) as real, p, q);
  }

  lemma RateMonotone(t: LoanType, p: real, q: real)
    requires p <= q
    ensures RateFor(t, p) <= RateFor(t, q)
  {
    var lo, hi := Band(t).0, Band(t).1;
    InterpolatedMonotone(lo, hi, p, q);
    RoundEvenMonotone(Interpolated(lo, hi, p), Interpolated(lo, hi, q));
  }

  lemma BandEnds(t: LoanType)
    ensures RateFor(t, 0.0) == Band(t).0 && RateFor(t, 1.0) == Band(t).1
  {
    RoundEvenWhole(Band(t).0);
    RoundEvenWhole(Band(t).1);
  }

  lemma RateInBand(t: LoanType, p: real)
    requires 0.0 <= p <= 1.0
    ensures Band(t).0 <= RateFor(t, p) <= Band(t).1
  {
    BandEnds(t);
    RateMonotone(t, 0.0, p);
    RateMonotone(t, p, 1.0);
  }

  predicate NoWorse(d: Decision, e: Decision) {
    && d.probability <= e.probability && Rank(d.hqGrade) <= Rank(e.hqGrade) && Rank(d.grade) <= Rank(e.grade)
    && d.rate <= e.rate
  }

  /** The decision as a whole is monotone in the applicant and in the branch's leniency. */
  lemma DecisionMonotone(a: Applicant, b: Applicant, p: Params, q: Params)
    requires Better(a, b) && Lenient(p, q) && q.regional > 0.0
    ensures Decide(a, p).Decided? && Decide(b, q).Decided?
    ensures NoWorse(Decide(a, p).decision, Decide(b, q).decision)
    ensures Band(p.loanType).0 <= Decide(a, p).decision.rate <= Band(p.loanType).1
    ensures b.income >= 0.0 ==> Decide(a, p).decision.maxLoan >= Decide(b, q).decision.maxLoan
  {
    RawMonotone(a, b);
    AdjustedMonotone(a, b, p, q);
    RateMonotone(p.loanType, Adjusted(a, p), Adjusted(b, q));
    RateInBand(p.loanType, Adjusted(a, p));
    var m, n := Multiplier(GradeOf(Adjusted(a, p))), Multiplier(GradeOf(Adjusted(b, q)));
    assert m >= n >= 0.0;
    if b.income >= 0.0 {
      Scale(b.income, n, m);
      Scale(m, b.income, a.income);
    }
  }

  // ---------- what a decision says ----------

  /** The rate to the nearest hundredth of a percent between the ends of the band. */
  predicate NearestRate(rate: int, t: LoanType, probability: real) {
    var (lo, hi) := Band(t);
    -0.5 <= rate as real - (lo as real + (hi - lo) as real * probability) <= 0.5
  }

  /** Grades cut the probability at 0.10, 0.22, 0.40 and 0.60. */
  predicate Graded(g: Grade, probability: real) {
    && (g == A <==> probability < 0.10) && (g == B <==> 0.10 <= probability < 0.22)
    && (g == C <==> 0.22 <= probability < 0.40) && (g == D <==> 0.40 <= probability < 0.60)
    && (g == F <==> 0.60 <= probability)
  }

  /** How many monthly incomes are lent at most. */
  function IncomesLent(probability: real): real {
    if probability < 0.10 then 80.0 else if probability < 0.22 then 60.0 else if probability < 0.40 then 45.0
    else if probability < 0.60 then 30.0 else 0.0
  }

  /** Grade, rate, maximum loan and products all follow the probability that the decision reports, after the branch's
      adjustments, and only the headquarters' grade the one before them: eighty, sixty, forty-five or thirty times the
      income, or nothing; home and business loans for the two best grades, personal loans up to the third, microfinance
      for the third and fourth, agricultural loans for the first and third. */
  lemma DecisionFollowsProbability(a: Applicant, p: Params, d: Decision)
    requires p.regional != 0.0 && Decide(a, p) == Decided(d)
    ensures d.probability == Adjusted(a, p) && Graded(d.grade, d.probability) && Graded(d.hqGrade, RawProbability(a))
    ensures NearestRate(d.rate, p.loanType, d.probability)
    ensures d.maxLoan == a.income * IncomesLent(d.probability)
    ensures HomeLoan in d.eligible <==> d.probability < 0.22
    ensures BusinessLoan in d.eligible <==> d.probability < 0.22
    ensures PersonalLoan in d.eligible <==> d.probability < 0.40
    ensures Microfinance in d.eligible <==> 0.22 <= d.probability < 0.60
    ensures Agricultural in d.eligible <==> d.probability < 0.10 || 0.22 <= d.probability < 0.40
  {
    RateIsNearest(p.loanType, d.probability);
    ProductsByProbability(d.probability);
  }

  lemma RateIsNearest(t: LoanType, probability: real)
    ensures NearestRate(RateFor(t, probability), t, probability)
  {
    var (lo, hi) := Band(t);
    assert Interpolated(lo, hi, probability) == lo as real + (hi - lo) as real * probability;
  }

  lemma ProductsByProbability(q: real)
    ensures HomeLoan in Eligible(GradeOf(q)) <==> q < 0.22
    ensures BusinessLoan in Eligible(GradeOf(q)) <==> q < 0.22
    ensures PersonalLoan in Eligible(GradeOf(q)) <==> q < 0.40
    ensures Microfinance in Eligible(GradeOf(q)) <==> 0.22 <= q < 0.60
    ensures Agricultural in Eligible(GradeOf(q)) <==> q < 0.10 || 0.22 <= q < 0.40
  {
  }

  // ---------- what the score charges ----------

  /** Features beyond which a term no longer grows or shrinks, cut to where it stops. */
  function Cut(a: Applicant): Applicant {
    a.(cibil := if a.cibil > 700 then 700 else a.cibil, dti := Min(a.dti, 0.8), utilisation := Min(a.utilisation, 0.9),
       openLoans := if a.openLoans > 5 then 5 else a.openLoans, digital := Min(a.digital, 50.0),
       spending := Min(a.spending, 60.0))
  }

  /** What each unit of a feature adds to the score, after cutting: three quarters of a thousandth for each CIBIL point
      below 700, a quarter of the debt ratio, and so on; the loan counts in tens of yearly incomes, up to one. */
  lemma PricePerUnit(a: Applicant)
    ensures var c, years := Cut(a), LoanToIncome(a.loan, a.income);
            RiskTerms(a) == (700 - c.cibil) as real * 0.00075 + c.dti * 0.25 + c.utilisation / 6.0
                            + c.openLoans as real * 0.02 + Min(years, 10.0) * 0.01
                            + (50.0 - c.digital) * 0.0008 + (60.0 - c.spending) * 0.0007
  {
    var c, years := Cut(a), LoanToIncome(a.loan, a.income);
    assert Max(0.0, (700 - a.cibil) as real / 400.0) == (700 - c.cibil) as real / 400.0;
    assert Min(a.dti / 0.8, 1.0) == c.dti / 0.8;
    assert Min(a.utilisation / 0.9, 1.0) == c.utilisation / 0.9;
    assert Min(a.openLoans as real / 5.0, 1.0) == c.openLoans as real / 5.0;
    assert LoanTerm(a.loan, a.income) == Min(years, 10.0) / 10.0;
    assert Max(0.0, (50.0 - a.digital) / 100.0) == (50.0 - c.digital) / 100.0;
    assert Max(0.0, (60.0 - a.spending) / 100.0) == (60.0 - c.spending) / 100.0;
  }

  /** Collateral for half the loan is worth eight points, a guarantor six; between the bounds nothing else counts. */
  lemma RawBetweenBounds(a: Applicant)
    requires Bounded(RiskTerms(a) - Secured(a))
    ensures RawProbability(a) == RiskTerms(a) - Secured(a)
  {
  }

  function Secured(a: Applicant): real {
    (if a.collateral * 2.0 >= a.loan then 0.08 else 0.0) + (if a.guarantor then 0.06 else 0.0)
  }

  // ---------- what the branch's adjustments add ----------

  /** The four adjustments taken on their own: four tenths of the debt ratio above the branch's limit, a reduction for
      collateral of at least half the loan where the branch weighs it, twenty points below its minimum CIBIL, and four
      points off for digital customers where it favours them. */
  function Premium(a: Applicant, p: Params): real { Max(0.0, a.dti - p.maxDti) * 0.4 }

  function Relief(a: Applicant, p: Params): real {
    var coverage := a.collateral / Max(a.loan, 1.0);
    if coverage >= 0.5 && p.collateralWeight > 0.3 then Times(coverage, p.collateralWeight) * 0.12 else 0.0
  }

  function Penalty(a: Applicant, p: Params): real { if a.cibil < p.minCibil then 0.20 else 0.0 }

  function Boost(a: Applicant, p: Params): real { if p.prioritiseDigital && a.digital >= 70.0 then 0.04 else 0.0 }

  /** As long as no intermediate value leaves the bounds, the adjustments simply add up, divided by the regional factor
      before the last one. */
  lemma AdjustmentsAddUp(a: Applicant, p: Params)
    requires p.regional != 0.0 && RawProbability(a) + Premium(a, p) <= 0.97
    requires 0.02 <= RawProbability(a) + Premium(a, p) - Relief(a, p)
    requires RawProbability(a) + Premium(a, p) - Relief(a, p) + Penalty(a, p) <= 0.97
    requires Bounded((RawProbability(a) + Premium(a, p) - Relief(a, p) + Penalty(a, p)) / p.regional)
    requires 0.02 <= (RawProbability(a) + Premium(a, p) - Relief(a, p) + Penalty(a, p)) / p.regional - Boost(a, p)
    ensures Adjusted(a, p)
         == (RawProbability(a) + Premium(a, p) - Relief(a, p) + Penalty(a, p)) / p.regional - Boost(a, p)
  {
    var x := RawProbability(a);
    assert DtiPremium(x, a.dti, p.maxDti) == x + Premium(a, p);
    assert CollateralRelief(x + Premium(a, p), Coverage(a.collateral, a.loan), p.collateralWeight)
        == x + Premium(a, p) - Relief(a, p);
    assert BeforeRegion(x, a, p) == x + Premium(a, p) - Relief(a, p) + Penalty(a, p);
  }

  // ---------- where monotonicity stops ----------

  /** A lower probability keeps every product of a higher one, except where it enters the B range or better and the
      higher one lies in the C or D range: there agricultural loans or microfinance are lost. */
  lemma ProductsKeptIff(p: real, q: real)
    requires p <= q
    ensures Eligible(GradeOf(q)) <= Eligible(GradeOf(p)) <==> !(p < 0.22 <= q < 0.60)
  {
    var g, h := GradeOf(p), GradeOf(q);
    assert Agricultural in Eligible(C) && Agricultural !in Eligible(B);
    assert Microfinance in Eligible(C) && Microfinance in Eligible(D);
    assert Microfinance !in Eligible(A) && Microfinance !in Eligible(B);
  }

  /** At a fixed income, a better grade lends at least as much exactly when the income is not negative. */
  lemma MaxLoanOrderIff(income: real, g: Grade, h: Grade)
    requires Rank(g) < Rank(h)
    ensures income * Multiplier(g) >= income * Multiplier(h) <==> income >= 0.0
  {
    var m, n := Multiplier(g), Multiplier(h);
    assert m > n;
    if income >= 0.0 { Scale(income, n, m); } else { Scale(-income, n, m); }
  }

  /** A higher income does not raise the loan-to-income term exactly when the loan is not negative, or both incomes
      fall under the floor of the ratio. */
  lemma IncomeHelpsIff(loan: real, income: real, smaller: real)
    requires income > smaller
    ensures LoanTerm(loan, income) <= LoanTerm(loan, smaller)
        <==> loan >= 0.0 || income * 12.0 <= 1.0
  {
    var d, e := Max(income * 12.0, 1.0), Max(smaller * 12.0, 1.0);
    if loan >= 0.0 || income * 12.0 <= 1.0 {
      Quotients(loan, loan, d, e);
    } else {
      assert d > e > 0.0;
      var u, v := loan / d, loan / e;
      assert d * u == loan && e * v == loan;
      NegativeQuotients(loan, d, e, u, v);
    }
  }

  lemma NegativeQuotients(x: real, d: real, e: real, u: real, v: real)
    requires x < 0.0 && d > e > 0.0 && d * u == x && e * v == x
    ensures 0.0 > u > v
  {
    if u >= 0.0 { ProductSign(d, u); }
    ProductSign(d - e, -u);
    assert (d - e) * (-u) == e * (u - v);
    CancelScale(e, 0.0, u - v);
  }

  /** A higher income never raises the default probability of applicants with this loan, at any branch. */
  ghost predicate IncomeHelps(loan: real, income: real, smaller: real) {
    forall a: Applicant, p: Params :: a.loan == loan && a.income == smaller && p.regional > 0.0 ==>
      Adjusted(a.(income := income), p) <= Adjusted(a, p)
  }

  /** On the whole decision, the higher income helps exactly when it helps the term. */
  lemma IncomeHelpsDecisionIff(loan: real, income: real, smaller: real)
    requires income > smaller
    ensures IncomeHelps(loan, income, smaller) <==> loan >= 0.0 || income * 12.0 <= 1.0
  {
    if loan >= 0.0 || income * 12.0 <= 1.0 {
      forall a: Applicant, p: Params | a.loan == loan && a.income == smaller && p.regional > 0.0
        ensures Adjusted(a.(income := income), p) <= Adjusted(a, p)
      {
        HigherIncome(a, income, p);
      }
    } else {
      var a := Debtor(loan, smaller);
      DebtorAdjusted(loan, smaller, income);
      assert a.loan == loan && a.income == smaller && PLAIN.regional > 0.0;
    }
  }

  lemma HigherIncome(a: Applicant, income: real, p: Params)
    requires income > a.income && p.regional > 0.0 && (a.loan >= 0.0 || income * 12.0 <= 1.0)
    ensures Adjusted(a.(income := income), p) <= Adjusted(a, p)
  {
    var rich := a.(income := income);
    if a.loan >= 0.0 {
      AdjustedMonotone(rich, a, p, p);
    } else {
      assert LoanToIncome(rich.loan, rich.income) == LoanToIncome(a.loan, a.income);
      assert RiskTerms(rich) == RiskTerms(a);
    }
  }

  /** A branch without adjustments. */
  const PLAIN: Params := Params(Unlisted, 1.0, 0.0, 1.0, 0, false)

  /** An applicant whose spending score puts the raw probability at one half. */
  function Debtor(loan: real, income: real): Applicant {
    Applicant(income, loan, 700, 0.0, 0.0, 0, loan, false, 50.0,
              60.0 - 100.0 * (0.5 - LoanToIncome(loan, income) / 10.0 * 0.10) / 0.07)
  }

  lemma DebtorAdjusted(loan: real, smaller: real, income: real)
    requires income > smaller && loan < 0.0 && income * 12.0 > 1.0
    ensures Adjusted(Debtor(loan, smaller).(income := income), PLAIN) > Adjusted(Debtor(loan, smaller), PLAIN)
  {
    var poor := Debtor(loan, smaller);
    var rich := poor.(income := income);
    var d, e := Max(income * 12.0, 1.0), Max(smaller * 12.0, 1.0);
    var u, v := loan / d, loan / e;
    NegativeQuotients(loan, d, e, u, v);
    DebtorRisk(poor, v);
    DebtorRisk(rich, u);
    PlainAdjusted(poor);
    PlainAdjusted(rich);
    assert RiskTerms(poor) == 0.5;
  }

  /** The risk of such an applicant, by the loan-to-income ratio. */
  lemma DebtorRisk(a: Applicant, ratio: real)
    requires ratio == LoanToIncome(a.loan, a.income) < 0.0 && a.spending <= 60.0
    requires a == Applicant(a.income, a.loan, 700, 0.0, 0.0, 0, a.loan, false, 50.0, a.spending)
    ensures RiskTerms(a) == ratio / 10.0 * 0.10 + (60.0 - a.spending) / 100.0 * 0.07
  {
    assert Min(ratio / 10.0, 1.0) == ratio / 10.0;
    assert Max(0.0, (60.0 - a.spending) / 100.0) == (60.0 - a.spending) / 100.0;
  }

  lemma PlainAdjusted(a: Applicant)
    requires a.loan < 0.0 && a == Applicant(a.income, a.loan, 700, 0.0, 0.0, 0, a.loan, false, 50.0, a.spending)
    ensures Adjusted(a, PLAIN) == Clamp(RiskTerms(a))
  {
    assert Reliefs(a) == 0.0;
    assert BeforeRegion(RawProbability(a), a, PLAIN) == RawProbability(a);
    assert RawProbability(a) / 1.0 == RawProbability(a);
  }

  /** An applicant of whom only income and loan vary. */
  function Weak(income: real, loan: real): Applicant {
    Applicant(income, loan, 300, 0.0, 0.0, 0, 0.0, false, 50.0, 60.0)
  }

  /** On the whole decision: with a negative loan, ten times the income raises the default probability from 0.12 to
      0.21 and the rate with it. */
  lemma HigherIncomeRaisesProbability()
    ensures var p := Params(Unlisted, 1.0, 0.5, 1.0, 0, false);
            var poor, rich := Decide(Weak(10.0, -1200.0), p), Decide(Weak(100.0, -1200.0), p);
            && poor.Decided? && rich.Decided?
            && poor.decision.probability == 0.12 && rich.decision.probability == 0.21
            && poor.decision.rate < rich.decision.rate
  {
    var poor, rich := Weak(10.0, -1200.0), Weak(100.0, -1200.0);
    assert LoanToIncome(-1200.0, 10.0) == -10.0 && LoanToIncome(-1200.0, 100.0) == -1.0;
    assert RiskTerms(poor) == 0.20 && RiskTerms(rich) == 0.29;
    assert RawProbability(poor) == 0.12 && RawProbability(rich) == 0.21;
    assert Coverage(0.0, -1200.0) == 0.0;
    assert Interpolated(1000, 1600, 0.12) == 1072.0 && Interpolated(1000, 1600, 0.21) == 1126.0;
    RoundEvenWhole(1072);
    RoundEvenWhole(1126);
  }
}
