/** What the balance sheet of `go_bff/gl.go` reports about the books of a run. */
module BalanceSheets {
  import opened GeneralLedger
  import opened GlAccounts
  import opened GlAgreement
  import opened Ledger
  import opened LedgerProofs

  datatype BalanceSheet = BalanceSheet(assets: int, liabilities: int, equity: int, income: int, expense: int,
                                       netProfit: int, balanced: bool)

  /** Debits minus credits over the accounts of one class. */
  function ClassNet(entries: seq<Entry>, k: Class): int {
    match k
    case ASSET => NetDebit(entries, C1000) + NetDebit(entries, C1100)
    case LIABILITY => NetDebit(entries, C2000) + NetDebit(entries, C2100)
    case EQUITY => NetDebit(entries, C3000)
    case INCOME => NetDebit(entries, C4000) + NetDebit(entries, C4100)
    case EXPENSE => NetDebit(entries, C5000)
  }

  /** The sheet reported for these entries: every figure goes through math_round. */
  predicate IsSheetOf(sheet: BalanceSheet, entries: seq<Entry>) {
    && sheet.assets == Rounded(ClassNet(entries, ASSET))
    && sheet.liabilities == Rounded(-ClassNet(entries, LIABILITY))
    && sheet.income == Rounded(-ClassNet(entries, INCOME)) && sheet.expense == Rounded(ClassNet(entries, EXPENSE))
    && sheet.netProfit == Rounded(sheet.income - sheet.expense)
    && sheet.equity == Rounded(-ClassNet(entries, EQUITY) + sheet.netProfit)
    && (sheet.balanced <==> sheet.assets == sheet.liabilities + sheet.equity)
  }

  /** Rounding a whole negative number of paisa cuts off towards zero and so adds one. */
  function Slip(p: int): int {
    if p < 0 then 1 else 0
  }

  function Rounded(p: int): int {
    p + Slip(p)
  }

  lemma RoundedIsMathRound(p: int)
    ensures MathRound(p as real) == Rounded(p)
  {
    MathRoundWhole(p);
  }

  /** The accounting equation: assets = liabilities + equity + income - expense, in every ledger whose debits equal
      its credits. */
  lemma AccountingEquation(entries: seq<Entry>)
    requires TotalDebit(entries) == TotalCredit(entries)
    ensures ClassNet(entries, ASSET) == -ClassNet(entries, LIABILITY) - ClassNet(entries, EQUITY)
                                        - ClassNet(entries, INCOME) - ClassNet(entries, EXPENSE)
  {
    NetAllIsDifference(entries);
  }

  /** The handler's computation. */
  method Report(entries: seq<Entry>) returns (sheet: BalanceSheet)
    ensures IsSheetOf(sheet, entries)
  {
    var byType := map k | k in {ASSET, LIABILITY, EQUITY, INCOME, EXPENSE} :: ClassNet(entries, k);
    var assets := MathRound(byType[ASSET] as real);
    var liabilities := MathRound(-byType[LIABILITY] as real);
    var income := MathRound(-byType[INCOME] as real);
    var expense := MathRound(byType[EXPENSE] as real);
    var netProfit := MathRound((income - expense) as real);
    var equity := MathRound((-byType[EQUITY] + netProfit) as real);
    RoundedIsMathRound(byType[ASSET]);
    RoundedIsMathRound(-byType[LIABILITY]);
    RoundedIsMathRound(-byType[INCOME]);
    RoundedIsMathRound(byType[EXPENSE]);
    RoundedIsMathRound(income - expense);
    RoundedIsMathRound(-byType[EQUITY] + netProfit);
    var balanced := assets - (liabilities + equity) == 0;
    sheet := BalanceSheet(assets, liabilities, equity, income, expense, netProfit, balanced);
  }

  // ---------- income and expense of a run ----------

  lemma {:induction false} NeverNegative(log: seq<Txn>, start: nat)
    requires ShapedFrom(log, start)
    ensures Fees(log, start) >= 0 && Moved(log, start, {INTEREST}) >= 0
  {
    if |log| > start { NeverNegative(log[..|log| - 1], start); }
  }

  /** The books of every synchronised run: income is the fees earned, expense is the interest paid, equity is nothing,
      and assets minus liabilities is the profit. */
  lemma RunProfit(b: Bank, ops: seq<Op>, entries: seq<Entry>, fees: int, interest: int)
    requires FdsLinked(b.fds, |b.accounts|) && Synchronised(b, ops, entries)
    requires fees == Fees(Run(b, ops).log, |b.log|) && interest == Moved(Run(b, ops).log, |b.log|, {INTEREST})
    ensures fees >= 0 && interest >= 0 && -ClassNet(entries, INCOME) == fees && ClassNet(entries, EXPENSE) == interest
    ensures ClassNet(entries, EQUITY) == 0
    ensures ClassNet(entries, ASSET) == -ClassNet(entries, LIABILITY) + fees - interest
  {
    RunShapes(b, ops);
    NeverNegative(Run(b, ops).log, |b.log|);
    BooksProfit(b, ops, entries);
    BooksEqual(b, ops, entries);
  }

  lemma BooksProfit(b: Bank, ops: seq<Op>, entries: seq<Entry>)
    requires FdsLinked(b.fds, |b.accounts|) && Synchronised(b, ops, entries)
    ensures -ClassNet(entries, INCOME) == Fees(Run(b, ops).log, |b.log|)
    ensures ClassNet(entries, EXPENSE) == Moved(Run(b, ops).log, |b.log|, {INTEREST})
    ensures ClassNet(entries, EQUITY) == 0
  {
    BooksUnused(b, ops, entries);
    BooksFees(b, ops, entries);
    BooksInterest(b, ops, entries);
  }

  lemma {:induction false} BooksUnused(b: Bank, ops: seq<Op>, entries: seq<Entry>)
    requires FdsLinked(b.fds, |b.accounts|) && Synchronised(b, ops, entries)
    ensures NetDebit(entries, C3000) == 0 && NetDebit(entries, C4100) == 0
  {
    RunAccounts(b, ops, entries, C3000);
    RunAccounts(b, ops, entries, C4100);
  }

  lemma {:induction false} BooksFees(b: Bank, ops: seq<Op>, entries: seq<Entry>)
    requires FdsLinked(b.fds, |b.accounts|) && Synchronised(b, ops, entries)
    ensures -NetDebit(entries, C4000) == Fees(Run(b, ops).log, |b.log|)
  {
    RunAccounts(b, ops, entries, C4000);
  }

  lemma {:induction false} BooksInterest(b: Bank, ops: seq<Op>, entries: seq<Entry>)
    requires FdsLinked(b.fds, |b.accounts|) && Synchronised(b, ops, entries)
    ensures NetDebit(entries, C5000) == Moved(Run(b, ops).log, |b.log|, {INTEREST})
  {
    RunAccounts(b, ops, entries, C5000);
  }

  lemma BooksEqual(b: Bank, ops: seq<Op>, entries: seq<Entry>)
    requires FdsLinked(b.fds, |b.accounts|) && Synchronised(b, ops, entries)
    ensures ClassNet(entries, ASSET) == -ClassNet(entries, LIABILITY) - ClassNet(entries, EQUITY)
                                        - ClassNet(entries, INCOME) - ClassNet(entries, EXPENSE)
  {
    RunDebitsEqualCredits(b, ops, entries);
    AccountingEquation(entries);
  }

  /** What the two sides of the sheet stand for after a run: assets are the opening cash and what came in less what went
      out, liabilities the customers' balances and the active fixed deposits, each up to its known differences. */
  lemma SidesOfSheet(b: Bank, ops: seq<Op>, entries: seq<Entry>)
    requires FdsLinked(b.fds, |b.accounts|) && Synchronised(b, ops, entries)
    ensures var after := Run(b, ops);
            && ClassNet(entries, ASSET) == ActiveTotal(b.accounts) + FdTotal(b.fds)
                 + Moved(after.log, |b.log|, CASH_IN) - Moved(after.log, |b.log|, CASH_OUT)
                 + Moved(after.log, |b.log|, {LOAN_DISBURSE}) - Moved(after.log, |b.log|, REPAYMENT)
            && -ClassNet(entries, LIABILITY) == TotalBalance(after.accounts) + FdTotal(after.fds)
                 + Sum(RunLost(b, ops)) - InactiveTotal(b.accounts)
                 - 2 * (LogBreaks(after.log) - LogBreaks(b.log)) + RunSlip(b, ops)
  {
    RunAccounts(b, ops, entries, C1000);
    RunAccounts(b, ops, entries, C1100);
    DepositsAccount(b, ops, entries);
    FixedDepositsAccount(b, ops, entries);
  }

  // ---------- when the sheet is reported as balanced ----------

  /** Exactly when the sheet of a synchronised run is reported as balanced. Books that balance are not enough: a loss of
      two paisa or more is always reported as unbalanced, one of a single paisa unless there are no liabilities, and a
      profit only if assets and liabilities have different signs. */
  lemma ReportedBalanced(b: Bank, ops: seq<Op>, entries: seq<Entry>, sheet: BalanceSheet, profit: int)
    requires FdsLinked(b.fds, |b.accounts|) && Synchronised(b, ops, entries) && IsSheetOf(sheet, entries)
    requires profit == Fees(Run(b, ops).log, |b.log|) - Moved(Run(b, ops).log, |b.log|, {INTEREST})
    ensures sheet.balanced <==>
            if profit >= 0 then ClassNet(entries, ASSET) < 0 <==> -ClassNet(entries, LIABILITY) < 0
            else profit == -1 && ClassNet(entries, LIABILITY) == 0
  {
    RunProfit(b, ops, entries, Fees(Run(b, ops).log, |b.log|), Moved(Run(b, ops).log, |b.log|, {INTEREST}));
  }

  /** With assets and liabilities not negative the two sides of the sheet differ by nothing without a loss, by one paisa
      for a loss of one, and by two for every larger one. */
  lemma LossIsReportedUnbalanced(b: Bank, ops: seq<Op>, entries: seq<Entry>, sheet: BalanceSheet, loss: int)
    requires FdsLinked(b.fds, |b.accounts|) && Synchronised(b, ops, entries) && IsSheetOf(sheet, entries)
    requires ClassNet(entries, ASSET) >= 0 && ClassNet(entries, LIABILITY) <= 0
    requires loss == Moved(Run(b, ops).log, |b.log|, {INTEREST}) - Fees(Run(b, ops).log, |b.log|)
    ensures sheet.liabilities + sheet.equity - sheet.assets == if loss <= 0 then 0 else if loss == 1 then 1 else 2
  {
    RunProfit(b, ops, entries, Fees(Run(b, ops).log, |b.log|), Moved(Run(b, ops).log, |b.log|, {INTEREST}));
  }

  /** A bank with one savings account that earns ten rupees a day. */
  const EARNER: Bank := Bank([Account("ram", "ktm", 1000000, 0, true, true, false, 36.5)], [], [])

  const ONE_DAY: seq<Op> := [Eod("ktm", 0, {}, Current)]

  lemma OneDayLog()
    ensures Run(EARNER, ONE_DAY).log == [Receive(INTEREST, 0, 1000).(balanceAfter := 1001000)]
  {
    var d := DecideInterest(EARNER, 0, "ktm");
    assert DailyInterest(EARNER.accounts[0]) == 1000.0;
    MathRoundWhole(1000);
    assert d == Book(Receive(INTEREST, 0, 1000), []);
    assert ONE_DAY[..0] == [] && Run(EARNER, ONE_DAY) == Step(EARNER, ONE_DAY[0]);
    assert InterestFrom(EARNER, 0, "ktm") == Apply(EARNER, d);
  }

  /** One day of interest, no fee, and the sheet is reported as unbalanced although the books balance. */
  lemma OneDayUnbalanced(entries: seq<Entry>, sheet: BalanceSheet)
    requires Synchronised(EARNER, ONE_DAY, entries) && IsSheetOf(sheet, entries)
    ensures TotalDebit(entries) == TotalCredit(entries) && !sheet.balanced
  {
    var log := Run(EARNER, ONE_DAY).log;
    OneDayLog();
    assert log[..0] == [] && Fees(log, 0) == 0 && Moved(log, 0, {INTEREST}) == 1000;
    RunDebitsEqualCredits(EARNER, ONE_DAY, entries);
    ReportedBalanced(EARNER, ONE_DAY, entries, sheet, -1000);
  }
}
