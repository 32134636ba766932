/** What every account of the general ledger holds: sums over the transactions by type, and for fixed deposits the table
    of deposits. */
module GlAccounts {
  import opened BankMeaning
  import opened GeneralLedger
  import opened GlAgreement
  import opened Ledger
  import opened LedgerProofs

  // ---------- amounts by type ----------

  /** The amounts of the rows from `start` on that have one of these types. */
  function Moved(log: seq<Txn>, start: nat, kinds: set<Kind>): int {
    if |log| <= start then 0
    else
      var t := log[|log| - 1];
      Moved(log[..|log| - 1], start, kinds) + AmountIf(t, kinds)
  }

  function AmountIf(t: Txn, kinds: set<Kind>): int {
    if t.kind in kinds then t.amount else 0
  }

  /** The fees of transfers and standing instructions. */
  function Fees(log: seq<Txn>, start: nat): int {
    if |log| <= start then 0
    else
      var t := log[|log| - 1];
      Fees(log[..|log| - 1], start) + FeeOf(t)
  }

  function FeeOf(t: Txn): int {
    if t.kind in {TRANSFER, STANDING_INSTRUCTION} then t.fee else 0
  }

  const CASH_IN: set<Kind> := {DEPOSIT, CHEQUE_DEPOSIT, IPO_REFUND, FOREX_UNLOAD}
  const CASH_OUT: set<Kind> := {WITHDRAWAL, CARD_POS, CARD_ATM, BILL_PAYMENT, IPO_BLOCK, FOREX_LOAD}
  const REPAYMENT: set<Kind> := {LOAN_EMI, LOAN_PREPAY, LOAN_FORECLOSE}

  /** What an account receives on its debit side, net: cash is what came in less what went out, loans what was lent less
      what was repaid, fixed deposits are what was opened less what matured, income is fees and expense interest; the
      current deposits are the other side of all of these. */
  function Expected(log: seq<Txn>, start: nat, c: Code): int {
    Split(c, Moved(log, start, CASH_IN) - Moved(log, start, CASH_OUT),
          Moved(log, start, {LOAN_DISBURSE}) - Moved(log, start, REPAYMENT),
          Moved(log, start, {FD_OPEN}) - Moved(log, start, {FD_MATURITY}), Moved(log, start, {INTEREST}),
          Fees(log, start))
  }

  /** How cash received, loans lent, deposits fixed, interest paid and fees charged fall on the accounts. */
  function Split(c: Code, cash: int, loans: int, fixed: int, interest: int, fees: int): int {
    match c
    case C1000 => cash
    case C1100 => loans
    case C2000 => fixed + fees - cash - loans - interest
    case C2100 => -fixed
    case C4000 => -fees
    case C5000 => interest
    case C3000 | C4100 => 0
  }

  /** One posting. */
  lemma PostingSplits(t: Txn, c: Code)
    requires t.fee >= 0
    ensures LineNet(PostingsFor(t.kind, t.amount, t.fee), c) == Share(t, c)
  {
    var lines := PostingsFor(t.kind, t.amount, t.fee);
    if lines != [] { LinesOf(lines, c); }
  }

  function Share(t: Txn, c: Code): int {
    Split(c, AmountIf(t, CASH_IN) - AmountIf(t, CASH_OUT), AmountIf(t, {LOAN_DISBURSE}) - AmountIf(t, REPAYMENT),
          AmountIf(t, {FD_OPEN}) - AmountIf(t, {FD_MATURITY}), AmountIf(t, {INTEREST}), FeeOf(t))
  }

  lemma ExpectedStep(log: seq<Txn>, start: nat, last: nat, c: Code)
    requires start <= last < |log|
    ensures Expected(log[..last + 1], start, c) == Expected(log[..last], start, c) + Share(log[last], c)
  {
    assert log[..last + 1][..last] == log[..last];
  }

  lemma BookingsStep(rows: seq<seq<Line>>, from: nat, last: nat, c: Code, share: int)
    requires from <= last < |rows| && share == LineNet(rows[last], c)
    ensures NetDebit(Bookings(rows, from, last + 1), c) == NetDebit(Bookings(rows, from, last), c) + share
  {
    NumberedSums(Row(last), rows[last], c);
    NetAppends(Bookings(rows, from, last), Numbered(Row(last), rows[last]), c);
  }

  predicate PostedShares(rows: seq<seq<Line>>, log: seq<Txn>, from: nat, c: Code) {
    |rows| == |log| && forall i :: from <= i < |log| ==> LineNet(rows[i], c) == Share(log[i], c)
  }

  lemma JournalShares(log: seq<Txn>, from: nat, c: Code)
    requires FeesOk(log, from)
    ensures PostedShares(Journal(log), log, from, c)
  {
    forall i | from <= i < |log| ensures LineNet(Journal(log)[i], c) == Share(log[i], c) { PostingSplits(log[i], c); }
  }

  lemma {:induction false} BookingsNet(rows: seq<seq<Line>>, log: seq<Txn>, from: nat, upto: nat, c: Code)
    requires from <= upto <= |log| && PostedShares(rows, log, from, c)
    ensures NetDebit(Bookings(rows, from, upto), c) == Expected(log[..upto], from, c)
  {
    if from < upto {
      BookingsNet(rows, log, from, upto - 1, c);
      BookingsStep(rows, from, upto - 1, c, Share(log[upto - 1], c));
      ExpectedStep(log, from, upto - 1, c);
    }
  }

  /** Every account of every synchronised ledger, whatever wrote the transactions: its opening value and the sums by
      type. */
  lemma AccountsByType(entries: seq<Entry>, opening: seq<Entry>, log: seq<Txn>, start: nat, c: Code)
    requires BookedUpTo(entries, opening, Journal(log), start, |log|) && FeesOk(log, start)
    ensures NetDebit(entries, c) == NetDebit(opening, c) + Expected(log, start, c)
  {
    JournalShares(log, start, c);
    BookingsNet(Journal(log), log, start, |log|, c);
    assert log[..|log|] == log;
    NetAppends(opening, Bookings(Journal(log), start, |log|), c);
  }

  /** The snapshot opens with the balances of active accounts as deposits, the principals of active deposits as fixed
      deposits, and both as cash. */
  function OpeningValue(b: Bank, c: Code): int {
    match c
    case C1000 => ActiveTotal(b.accounts) + FdTotal(b.fds)
    case C2000 => -ActiveTotal(b.accounts)
    case C2100 => -FdTotal(b.fds)
    case _ => 0
  }

  lemma {:induction false} RunAccounts(b: Bank, ops: seq<Op>, entries: seq<Entry>, c: Code)
    requires FdsLinked(b.fds, |b.accounts|) && Synchronised(b, ops, entries)
    ensures NetDebit(entries, c) == OpeningValue(b, c) + Expected(Run(b, ops).log, |b.log|, c)
  {
    ActiveNonNegative(b.accounts);
    FdTotalNonNegative(b.fds);
    OpeningTotals(b, c);
    RunShapes(b, ops);
    AccountsByType(entries, OpeningEntries(b), Run(b, ops).log, |b.log|, c);
  }

  // ---------- fixed deposits ----------

  /** What ripe deposits from position i on are booked short by: their interest, which the ledger takes from the
      principals. */
  function RipeSlip(fds: seq<FixedDeposit>, i: nat, branch: string, today: int): int
    requires i <= |fds|
    decreases |fds| - i
  {
    if i == |fds| then 0
    else (if Ripe(fds[i], branch, today) then fds[i].principal - fds[i].maturityAmount else 0)
         + RipeSlip(fds, i + 1, branch, today)
  }

  /** By how much a step drives account 2100 from the table: an early break takes the principal out of the table and
      books the refund as a new deposit. */
  function StepSlip(b: Bank, op: Op): int {
    if op.Eod? then RipeSlip(b.fds, 0, op.branch, op.today)
    else if op.FdBreak? && Answer(b, op) == 0 then
      2 * b.fds[op.fd].principal - BreakPenalty(b.fds[op.fd].principal)
    else 0
  }

  function RunSlip(b: Bank, ops: seq<Op>): int
    requires FdsLinked(b.fds, |b.accounts|)
  {
    if ops == [] then 0
    else RunSlip(b, ops[..|ops| - 1]) + StepSlip(Run(b, ops[..|ops| - 1]), ops[|ops| - 1])
  }

  /** Deposits opened less deposits matured according to the log, less the principals in the table. */
  function Gap(b: Bank, start: nat): int {
    Moved(b.log, start, {FD_OPEN}) - Moved(b.log, start, {FD_MATURITY}) - FdTotal(b.fds)
  }

  lemma MovedAppended(log: seq<Txn>, t: Txn, start: nat, kinds: set<Kind>)
    requires start <= |log|
    ensures Moved(log + [t], start, kinds) == Moved(log, start, kinds) + if t.kind in kinds then t.amount else 0
  {
    assert (log + [t])[..|log|] == log;
  }

  function Standing(fd: FixedDeposit): int {
    if fd.status == ACTIVE then fd.principal else 0
  }

  lemma {:induction false} FdTotalUpdate(fds: seq<FixedDeposit>, k: nat, fd: FixedDeposit)
    requires k < |fds|
    ensures FdTotal(fds[k := fd]) == FdTotal(fds) - Standing(fds[k]) + Standing(fd)
  {
    var n := |fds| - 1;
    if k < n {
      FdTotalUpdate(fds[..n], k, fd);
      assert fds[k := fd][..n] == fds[..n][k := fd];
    } else {
      assert fds[k := fd][..n] == fds[..n];
    }
  }

  lemma FdTotalAppended(fds: seq<FixedDeposit>, fd: FixedDeposit)
    ensures FdTotal(fds + [fd]) == FdTotal(fds) + Standing(fd)
  {
    assert (fds + [fd])[..|fds|] == fds;
  }

  lemma {:induction false} InterestKeepsGap(b: Bank, i: nat, branch: string, start: nat)
    requires i <= |b.accounts| && start <= |b.log|
    ensures Gap(InterestFrom(b, i, branch), start) == Gap(b, start)
    decreases |b.accounts| - i
  {
    if i < |b.accounts| {
      var d := DecideInterest(b, i, branch);
      if d.Book? {
        MovedAppended(b.log, Stamped(b.accounts, d.txn), start, {FD_OPEN});
        MovedAppended(b.log, Stamped(b.accounts, d.txn), start, {FD_MATURITY});
      }
      InterestKeepsGap(Apply(b, d), i + 1, branch, start);
    }
  }

  lemma OneMatures(b: Bank, seen: seq<Account>, i: nat, start: nat)
    requires i < |b.fds| && |seen| == |b.accounts| && b.fds[i].account < |b.accounts| && start <= |b.log|
    requires b.fds[i].status == ACTIVE
    ensures Gap(Mature(b, seen, i), start) == Gap(b, start) + b.fds[i].principal - b.fds[i].maturityAmount
  {
    var c := Mature(b, seen, i);
    MovedAppended(b.log, c.log[|b.log|], start, {FD_OPEN});
    MovedAppended(b.log, c.log[|b.log|], start, {FD_MATURITY});
    FdTotalUpdate(b.fds, i, b.fds[i].(status := MATURED));
  }

  lemma {:induction false} MaturityMovesGap(b: Bank, before: seq<Account>, i: nat, branch: string, today: int,
                                            reading: Reading, start: nat, fds: seq<FixedDeposit>)
    requires i <= |b.fds| == |fds| && |before| == |b.accounts| && FdsLinked(b.fds, |b.accounts|) && start <= |b.log|
    requires forall j :: i <= j < |fds| ==> b.fds[j] == fds[j]
    ensures Gap(MatureFrom(b, before, i, branch, today, reading), start)
         == Gap(b, start) + RipeSlip(fds, i, branch, today)
    decreases |b.fds| - i
  {
    if i < |b.fds| {
      assert Due(b.fds[i], branch, today) <==> Ripe(fds[i], branch, today);
      if Due(b.fds[i], branch, today) { OneMatures(b, Seen(b, before, reading), i, start); }
      var c := MatureIfDue(b, before, i, branch, today, reading);
      MaturityMovesGap(c, before, i + 1, branch, today, reading, start, fds);
    }
  }

  lemma EodMovesGap(b: Bank, op: Op, start: nat)
    requires FdsLinked(b.fds, |b.accounts|) && op.Eod? && start <= |b.log|
    ensures Gap(Step(b, op), start) == Gap(b, start) + StepSlip(b, op)
  {
    var c := BeforeMaturity(b, op.branch, op.recent);
    InterestKeepsGap(b, 0, op.branch, start);
    InterestLogGrows(b, 0, op.branch);
    MaturityMovesGap(c, c.accounts, 0, op.branch, op.today, op.reading, start, b.fds);
  }

  lemma RequestMovesGap(b: Bank, op: Op, start: nat)
    requires FdsLinked(b.fds, |b.accounts|) && FdsPositive(b.fds) && !op.Eod? && start <= |b.log|
    ensures Gap(Step(b, op), start) == Gap(b, start) + StepSlip(b, op)
  {
    StepRow(b, op);
    AnswersAgree(b, op);
    if Answer(b, op) == 0 {
      var row := RowFor(b, op).(balanceAfter := Step(b, op).accounts[Checked(b, op).value].balance);
      MovedAppended(b.log, row, start, {FD_OPEN});
      MovedAppended(b.log, row, start, {FD_MATURITY});
      DepositsMove(b, op);
    }
  }

  lemma DepositsMove(b: Bank, op: Op)
    requires FdsLinked(b.fds, |b.accounts|) && !op.Eod? && Answer(b, op) == 0
    ensures FdTotal(Step(b, op).fds) == FdTotal(b.fds)
              + if op.FdCreate? then op.amount else if op.FdBreak? then -b.fds[op.fd].principal else 0
  {
    AnswersAgree(b, op);
    StepDeposits(b, op, 0);
    var after := Step(b, op).fds;
    if op.FdCreate? {
      FdTotalAppended(b.fds, after[|b.fds|]);
    } else if op.FdBreak? {
      FdTotalUpdate(b.fds, op.fd, b.fds[op.fd].(status := BROKEN));
    }
  }

  lemma {:induction false} RunMovesGap(b: Bank, ops: seq<Op>)
    requires FdsLinked(b.fds, |b.accounts|) && FdsPositive(b.fds)
    ensures Gap(Run(b, ops), |b.log|) == RunSlip(b, ops) - FdTotal(b.fds)
  {
    if ops != [] {
      var n := |ops| - 1;
      var c := Run(b, ops[..n]);
      RunMovesGap(b, ops[..n]);
      RunKeepsPositive(b, ops[..n]);
      LogGrows(b, ops[..n]);
      if ops[n].Eod? { EodMovesGap(c, ops[n], |b.log|); } else { RequestMovesGap(c, ops[n], |b.log|); }
    }
  }

  /** After every synchronised run account 2100 is the principals of the active deposits in the table, plus twice the
      principal less the penalty for every early break, less the interest of every deposit that has matured. */
  lemma FixedDepositsAccount(b: Bank, ops: seq<Op>, entries: seq<Entry>)
    requires FdsLinked(b.fds, |b.accounts|) && Synchronised(b, ops, entries)
    ensures -NetDebit(entries, C2100) == FdTotal(Run(b, ops).fds) + RunSlip(b, ops)
  {
    RunAccounts(b, ops, entries, C2100);
    RunMovesGap(b, ops);
  }
}
