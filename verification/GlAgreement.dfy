/** How the general ledger relates to the customer balances, and what the balance sheet reports. */
module GlAgreement {
  import opened GeneralLedger
  import opened Ledger
  import opened LedgerProofs
  import opened Options

  // ---------- totals of balances and of the log ----------

  function TotalBalance(accounts: seq<Account>): int {
    if accounts == [] then 0 else TotalBalance(accounts[..|accounts| - 1]) + accounts[|accounts| - 1].balance
  }

  function InactiveTotal(accounts: seq<Account>): int {
    if accounts == [] then 0
    else
      var last := accounts[|accounts| - 1];
      InactiveTotal(accounts[..|accounts| - 1]) + if last.active then 0 else last.balance
  }

  function Sum(xs: seq<int>): int {
    if xs == [] then 0 else Sum(xs[..|xs| - 1]) + xs[|xs| - 1]
  }

  /** What a row does to the sum of all balances. */
  function TotalEffect(t: Txn): int {
    (if t.to.Some? then t.amount else 0) - (if t.from.Some? then t.amount + t.fee else 0)
  }

  /** The amount of a row that credits an account under the FD opening type: an early break. */
  function BreakAmount(t: Txn): int {
    if t.kind == FD_OPEN && t.to.Some? then t.amount else 0
  }

  function LogTotal(log: seq<Txn>): int {
    if log == [] then 0 else LogTotal(log[..|log| - 1]) + TotalEffect(log[|log| - 1])
  }

  function LogBreaks(log: seq<Txn>): int {
    if log == [] then 0 else LogBreaks(log[..|log| - 1]) + BreakAmount(log[|log| - 1])
  }

  lemma {:induction false} ActiveAndInactive(accounts: seq<Account>)
    ensures ActiveTotal(accounts) + InactiveTotal(accounts) == TotalBalance(accounts)
  {
    if accounts != [] { ActiveAndInactive(accounts[..|accounts| - 1]); }
  }

  lemma {:induction false} ActiveNonNegative(accounts: seq<Account>)
    requires NonNegative(accounts)
    ensures ActiveTotal(accounts) >= 0
  {
    if accounts != [] { ActiveNonNegative(accounts[..|accounts| - 1]); }
  }

  lemma {:induction false} FdTotalNonNegative(fds: seq<FixedDeposit>)
    requires FdsPositive(fds)
    ensures FdTotal(fds) >= 0
  {
    if fds != [] { FdTotalNonNegative(fds[..|fds| - 1]); }
  }

  lemma {:induction false} TotalUpdate(accounts: seq<Account>, after: seq<Account>, a: nat)
    requires a < |accounts| == |after|
    requires forall i :: 0 <= i < |accounts| && i != a ==> after[i].balance == accounts[i].balance
    ensures TotalBalance(after) == TotalBalance(accounts) - accounts[a].balance + after[a].balance
  {
    var n := |accounts| - 1;
    if a < n {
      TotalUpdate(accounts[..n], after[..n], a);
    } else {
      SameBalancesSameTotal(accounts[..n], after[..n]);
    }
  }

  lemma {:induction false} SumUpdate(xs: seq<int>, a: nat, x: int)
    requires a < |xs|
    ensures Sum(xs[a := x]) == Sum(xs) - xs[a] + x
  {
    var n := |xs| - 1;
    if a < n {
      SumUpdate(xs[..n], a, x);
      assert xs[a := x][..n] == xs[..n][a := x];
    } else {
      assert xs[a := x][..n] == xs[..n];
    }
  }

  lemma {:induction false} SumOfZeros(n: nat)
    ensures Sum(Zeros(n)) == 0
  {
    if n > 0 {
      assert Zeros(n)[..n - 1] == Zeros(n - 1);
      SumOfZeros(n - 1);
    }
  }

  lemma {:induction false} SameBalancesSameTotal(x: seq<Account>, y: seq<Account>)
    requires |x| == |y| && forall a :: 0 <= a < |x| ==> x[a].balance == y[a].balance
    ensures TotalBalance(x) == TotalBalance(y)
  {
    if x != [] { SameBalancesSameTotal(x[..|x| - 1], y[..|y| - 1]); }
  }

  /** Balances plus losses minus what the log says: constant over every run. */
  function Drift(b: Bank, lost: seq<int>): int {
    TotalBalance(b.accounts) + Sum(lost) - LogTotal(b.log)
  }

  lemma CreditTotal(accounts: seq<Account>, a: nat, amount: int)
    requires a < |accounts|
    ensures TotalBalance(Credit(accounts, a, amount)) == TotalBalance(accounts) + amount
  {
    TotalUpdate(accounts, Credit(accounts, a, amount), a);
  }

  lemma ApplyConserves(b: Bank, d: Decision, lost: seq<int>)
    requires d.Book? ==> RowsExist(b.accounts, d.txn)
    ensures Drift(Apply(b, d), lost) == Drift(b, lost)
  {
    if d.Book? {
      var t := d.txn;
      var debited := if t.from.Some? then Credit(b.accounts, t.from.value, -(t.amount + t.fee)) else b.accounts;
      if t.from.Some? { CreditTotal(b.accounts, t.from.value, -(t.amount + t.fee)); }
      if t.to.Some? { CreditTotal(debited, t.to.value, t.amount); }
      assert Apply(b, d).log[..|b.log|] == b.log;
    }
  }

  lemma {:induction false} InterestConserves(b: Bank, i: nat, branch: string, lost: seq<int>)
    requires i <= |b.accounts|
    ensures Drift(InterestFrom(b, i, branch), lost) == Drift(b, lost)
    decreases |b.accounts| - i
  {
    if i < |b.accounts| {
      ApplyConserves(b, DecideInterest(b, i, branch), lost);
      InterestConserves(Apply(b, DecideInterest(b, i, branch)), i + 1, branch, lost);
    }
  }

  lemma MatureConserves(b: Bank, before: seq<Account>, i: nat, lost: seq<int>)
    requires i < |b.fds| && |before| == |b.accounts| == |lost| && b.fds[i].account < |b.accounts|
    ensures Drift(Mature(b, before, i), LoseAt(b, before, i, lost)) == Drift(b, lost)
  {
    var a := b.fds[i].account;
    TotalUpdate(b.accounts, Mature(b, before, i).accounts, a);
    SumUpdate(lost, a, lost[a] + b.accounts[a].balance - before[a].balance);
    assert Mature(b, before, i).log[..|b.log|] == b.log;
  }

  lemma {:induction false} MaturePassConserves(b: Bank, before: seq<Account>, i: nat, branch: string, today: int,
                                               reading: Reading, lost: seq<int>)
    requires i <= |b.fds| && |before| == |b.accounts| == |lost| && FdsLinked(b.fds, |b.accounts|)
    ensures Drift(MatureFrom(b, before, i, branch, today, reading),
                  MatureLost(b, before, i, branch, today, reading, lost))
         == Drift(b, lost)
    decreases |b.fds| - i
  {
    if i < |b.fds| {
      var c, seen := MatureIfDue(b, before, i, branch, today, reading), Seen(b, before, reading);
      if Due(b.fds[i], branch, today) {
        MatureConserves(b, seen, i, lost);
        MaturePassConserves(c, before, i + 1, branch, today, reading, LoseAt(b, seen, i, lost));
      } else {
        MaturePassConserves(c, before, i + 1, branch, today, reading, lost);
      }
    }
  }

  lemma StepConserves(b: Bank, op: Op, lost: seq<int>)
    requires FdsLinked(b.fds, |b.accounts|) && |lost| == |b.accounts|
    ensures Drift(Step(b, op), OpLost(b, op, lost)) == Drift(b, lost)
  {
    if op.Eod? {
      var c := BeforeMaturity(b, op.branch, op.recent);
      InterestConserves(b, 0, op.branch, lost);
      SameBalancesSameTotal(c.accounts, InterestFrom(b, 0, op.branch).accounts);
      MaturePassConserves(c, c.accounts, 0, op.branch, op.today, op.reading, lost);
    } else {
      ApplyConserves(b, Decide(b, op), lost);
    }
  }

  lemma {:induction false} RunConserves(b: Bank, ops: seq<Op>)
    requires FdsLinked(b.fds, |b.accounts|)
    ensures Drift(Run(b, ops), RunLost(b, ops)) == TotalBalance(b.accounts) - LogTotal(b.log)
  {
    if ops == [] {
      SumOfZeros(|b.accounts|);
    } else {
      RunConserves(b, ops[..|ops| - 1]);
      StepConserves(Run(b, ops[..|ops| - 1]), ops[|ops| - 1], RunLost(b, ops[..|ops| - 1]));
    }
  }

  // ---------- the shape of the rows a run writes ----------

  predicate Shaped(t: Txn) {
    t.amount > 0 && t.fee >= 0 &&
    match t.kind
    case DEPOSIT | CHEQUE_DEPOSIT | INTEREST | FD_MATURITY => t.from.None? && t.to.Some?
    case WITHDRAWAL | CARD_POS | CARD_ATM | BILL_PAYMENT => t.from.Some? && t.to.None? && t.fee == 0
    case TRANSFER => t.from.Some? && t.to.Some?
    case FD_OPEN => (t.from.Some? && t.to.None? && t.fee == 0) || (t.from.None? && t.to.Some?)
    case _ => false
  }

  predicate ShapedFrom(log: seq<Txn>, start: nat) {
    forall i :: start <= i < |log| ==> Shaped(log[i])
  }

  lemma ApplyShapes(b: Bank, op: Op, start: nat)
    requires !op.Eod? && FdsPositive(b.fds) && ShapedFrom(b.log, start)
    ensures ShapedFrom(Apply(b, Decide(b, op)).log, start)
  {
    if op.FdBreak? && Decide(b, op).Book? { BreakPays(b.fds[op.fd].principal); }
  }

  lemma {:induction false} InterestShapes(b: Bank, i: nat, branch: string, start: nat)
    requires i <= |b.accounts| && ShapedFrom(b.log, start)
    ensures ShapedFrom(InterestFrom(b, i, branch).log, start)
    decreases |b.accounts| - i
  {
    if i < |b.accounts| { InterestShapes(Apply(b, DecideInterest(b, i, branch)), i + 1, branch, start); }
  }

  lemma {:induction false} MatureShapes(b: Bank, before: seq<Account>, i: nat, branch: string, today: int,
                                        reading: Reading, start: nat)
    requires i <= |b.fds| && |before| == |b.accounts| && FdsLinked(b.fds, |b.accounts|) && FdsPositive(b.fds)
    requires ShapedFrom(b.log, start)
    ensures ShapedFrom(MatureFrom(b, before, i, branch, today, reading).log, start)
    decreases |b.fds| - i
  {
    if i < |b.fds| {
      MatureShapes(MatureIfDue(b, before, i, branch, today, reading), before, i + 1, branch, today, reading, start);
    }
  }

  lemma {:induction false} RunShapes(b: Bank, ops: seq<Op>)
    requires FdsLinked(b.fds, |b.accounts|) && FdsPositive(b.fds)
    ensures ShapedFrom(Run(b, ops).log, |b.log|)
  {
    if ops != [] {
      var c, op := Run(b, ops[..|ops| - 1]), ops[|ops| - 1];
      RunShapes(b, ops[..|ops| - 1]);
      RunKeepsPositive(b, ops[..|ops| - 1]);
      if op.Eod? {
        var e := BeforeMaturity(c, op.branch, op.recent);
        InterestShapes(c, 0, op.branch, |b.log|);
        MatureShapes(e, e.accounts, 0, op.branch, op.today, op.reading, |b.log|);
      } else {
        ApplyShapes(c, op, |b.log|);
      }
    }
  }

  // ---------- account 2000 ----------

  /** On the deposits account a posting does what its row does to the balances, except that an early break is
      booked in the opposite direction. */
  lemma PostingOnDeposits(t: Txn)
    requires Shaped(t)
    ensures -LineNet(PostingsFor(t.kind, t.amount, t.fee), C2000) == TotalEffect(t) - 2 * BreakAmount(t)
  {
    LinesOf(PostingsFor(t.kind, t.amount, t.fee), C2000);
  }

  predicate RowsMatch(rows: seq<seq<Line>>, log: seq<Txn>, start: nat) {
    |rows| == |log| &&
    forall i :: start <= i < |log| ==> -LineNet(rows[i], C2000) == TotalEffect(log[i]) - 2 * BreakAmount(log[i])
  }

  lemma {:induction false} BookingsOnDeposits(rows: seq<seq<Line>>, log: seq<Txn>, from: nat, upto: nat)
    requires from <= upto <= |log| && RowsMatch(rows, log, from)
    ensures -NetDebit(Bookings(rows, from, upto), C2000)
         == (LogTotal(log[..upto]) - LogTotal(log[..from])) - 2 * (LogBreaks(log[..upto]) - LogBreaks(log[..from]))
  {
    if from < upto {
      var last := upto - 1;
      BookingsOnDeposits(rows, log, from, last);
      NumberedSums(Row(last), rows[last], C2000);
      NetAppends(Bookings(rows, from, last), Numbered(Row(last), rows[last]), C2000);
      assert log[..upto][..last] == log[..last];
    }
  }

  lemma JournalMatches(log: seq<Txn>, start: nat)
    requires ShapedFrom(log, start)
    ensures RowsMatch(Journal(log), log, start)
  {
    forall i | start <= i < |log|
      ensures -LineNet(Journal(log)[i], C2000) == TotalEffect(log[i]) - 2 * BreakAmount(log[i])
    {
      PostingOnDeposits(log[i]);
    }
  }

  /** The books after a run from the opening snapshot on, once synchronised. */
  ghost predicate Synchronised(b: Bank, ops: seq<Op>, entries: seq<Entry>)
    requires FdsLinked(b.fds, |b.accounts|)
  {
    && FdsPositive(b.fds) && NonNegative(b.accounts)
    && BookedUpTo(entries, OpeningEntries(b), Journal(Run(b, ops).log), |b.log|, |Run(b, ops).log|)
  }

  /** For every run after the opening snapshot, once synchronised: the net credit of account 2000 is the sum of the
      customer balances, plus what end-of-day runs overwrote, minus the balances of accounts that were inactive
      at the snapshot, minus twice the amounts of early deposit breaks. */
  lemma DepositsAccount(b: Bank, ops: seq<Op>, entries: seq<Entry>)
    requires FdsLinked(b.fds, |b.accounts|) && Synchronised(b, ops, entries)
    ensures -NetDebit(entries, C2000)
         == TotalBalance(Run(b, ops).accounts) + Sum(RunLost(b, ops)) - InactiveTotal(b.accounts)
            - 2 * (LogBreaks(Run(b, ops).log) - LogBreaks(b.log))
  {
    var c := Run(b, ops);
    ActiveNonNegative(b.accounts);
    FdTotalNonNegative(b.fds);
    OpeningTotals(b, C2000);
    ActiveAndInactive(b.accounts);
    RunShapes(b, ops);
    RunConserves(b, ops);
    LogGrows(b, ops);
    assert c.log[..|b.log|] == b.log && c.log[..|c.log|] == c.log;
    JournalMatches(c.log, |b.log|);
    BookingsOnDeposits(Journal(c.log), c.log, |b.log|, |c.log|);
    NetAppends(OpeningEntries(b), Bookings(Journal(c.log), |b.log|, |c.log|), C2000);
  }

  // ---------- early breaks ----------

  /** An accepted early break of a deposit. */
  predicate Breaks(b: Bank, op: Op) {
    op.FdBreak? && Decide(b, op).Book?
  }

  /** Every attempt of a run to break a deposit is refused when it is made. */
  predicate NoBreaks(b: Bank, ops: seq<Op>)
    requires FdsLinked(b.fds, |b.accounts|)
  {
    ops == [] || (NoBreaks(b, ops[..|ops| - 1]) && !Breaks(Run(b, ops[..|ops| - 1]), ops[|ops| - 1]))
  }

  /** A break always pays something. */
  lemma BreakPays(principal: int)
    requires principal > 0
    ensures BreakRefund(principal) > 0
  {
    var penalty := BreakPenalty(principal);
    assert penalty as real <= principal as real * 0.01 + 0.5;
    assert principal - penalty > 0;
    MathRoundWhole(principal - penalty);
  }

  lemma BreaksOfAppended(log: seq<Txn>, t: Txn)
    ensures LogBreaks(log + [t]) == LogBreaks(log) + BreakAmount(t)
  {
    assert (log + [t])[..|log|] == log;
  }

  lemma {:induction false} InterestBreaksNothing(b: Bank, i: nat, branch: string)
    requires i <= |b.accounts|
    ensures LogBreaks(InterestFrom(b, i, branch).log) == LogBreaks(b.log)
    decreases |b.accounts| - i
  {
    if i < |b.accounts| {
      var d := DecideInterest(b, i, branch);
      if d.Book? { BreaksOfAppended(b.log, Stamped(b.accounts, d.txn)); }
      InterestBreaksNothing(Apply(b, d), i + 1, branch);
    }
  }

  lemma {:induction false} MaturityBreaksNothing(b: Bank, before: seq<Account>, i: nat, branch: string, today: int,
                                                 reading: Reading)
    requires i <= |b.fds| && |before| == |b.accounts| && FdsLinked(b.fds, |b.accounts|)
    ensures LogBreaks(MatureFrom(b, before, i, branch, today, reading).log) == LogBreaks(b.log)
    decreases |b.fds| - i
  {
    if i < |b.fds| {
      var c := MatureIfDue(b, before, i, branch, today, reading);
      if Due(b.fds[i], branch, today) { BreaksOfAppended(b.log, c.log[|b.log|]); }
      MaturityBreaksNothing(c, before, i + 1, branch, today, reading);
    }
  }

  lemma StepBreaks(b: Bank, op: Op)
    requires FdsLinked(b.fds, |b.accounts|) && FdsPositive(b.fds)
    ensures LogBreaks(Step(b, op).log) >= LogBreaks(b.log)
    ensures LogBreaks(Step(b, op).log) == LogBreaks(b.log) <==> !Breaks(b, op)
  {
    if op.Eod? {
      var c := BeforeMaturity(b, op.branch, op.recent);
      InterestBreaksNothing(b, 0, op.branch);
      MaturityBreaksNothing(c, c.accounts, 0, op.branch, op.today, op.reading);
    } else if Decide(b, op).Book? {
      DecisionBreaks(b, op, Decide(b, op).txn);
      BreaksOfAppended(b.log, Stamped(b.accounts, Decide(b, op).txn));
    }
  }

  lemma DecisionBreaks(b: Bank, op: Op, t: Txn)
    requires FdsPositive(b.fds) && !op.Eod? && Decide(b, op).Book? && t == Decide(b, op).txn
    ensures if op.FdBreak? then BreakAmount(t) > 0 else BreakAmount(t) == 0
  {
    if op.FdBreak? { BreakPays(b.fds[op.fd].principal); }
  }

  lemma {:induction false} BreaksIff(b: Bank, ops: seq<Op>)
    requires FdsLinked(b.fds, |b.accounts|) && FdsPositive(b.fds)
    ensures LogBreaks(Run(b, ops).log) >= LogBreaks(b.log)
    ensures LogBreaks(Run(b, ops).log) == LogBreaks(b.log) <==> NoBreaks(b, ops)
  {
    if ops != [] {
      BreaksIff(b, ops[..|ops| - 1]);
      RunKeepsPositive(b, ops[..|ops| - 1]);
      StepBreaks(Run(b, ops[..|ops| - 1]), ops[|ops| - 1]);
    }
  }

  /** In runs without double maturities and with no money on inactive accounts at the snapshot, the deposits account is
      exactly the sum of the customer balances if and only if every attempt to break a deposit early was refused. */
  lemma DepositsAccountAgrees(b: Bank, ops: seq<Op>, entries: seq<Entry>)
    requires FdsLinked(b.fds, |b.accounts|) && Synchronised(b, ops, entries)
    requires SingleMaturities(b, ops) && InactiveTotal(b.accounts) == 0
    ensures -NetDebit(entries, C2000) == TotalBalance(Run(b, ops).accounts) <==> NoBreaks(b, ops)
  {
    DepositsAccount(b, ops, entries);
    RunLosesNothing(b, ops, Zeros(|b.accounts|));
    SumOfZeros(|b.accounts|);
    BreaksIff(b, ops);
  }

  /** A bank with one account and one active deposit. */
  const SAVER: Bank := Bank([Account("ram", "ktm", 0, 0, true, true, false, 5.0)],
                            [FixedDeposit("ram", 0, "ktm", 100000, 108000, 360, ACTIVE)], [])

  /** One accepted break, and the two no longer agree. */
  lemma OneBreakDisagrees(entries: seq<Entry>)
    requires Synchronised(SAVER, [FdBreak("ram", 0)], entries)
    ensures -NetDebit(entries, C2000) != TotalBalance(Run(SAVER, [FdBreak("ram", 0)]).accounts)
  {
    var ops := [FdBreak("ram", 0)];
    assert ops[..0] == [] && !NoBreaks(SAVER, ops);
    assert SAVER.accounts[..0] == [] && InactiveTotal(SAVER.accounts) == 0;
    DepositsAccountAgrees(SAVER, ops, entries);
  }

  /** Debits equal credits after every run and synchronisation, early breaks included. */
  lemma RunDebitsEqualCredits(b: Bank, ops: seq<Op>, entries: seq<Entry>)
    requires FdsLinked(b.fds, |b.accounts|) && Synchronised(b, ops, entries)
    ensures TotalDebit(entries) == TotalCredit(entries)
  {
    ActiveNonNegative(b.accounts);
    FdTotalNonNegative(b.fds);
    RunShapes(b, ops);
    DebitsEqualCredits(entries, b, Run(b, ops).log, |b.log|, |Run(b, ops).log|);
  }

  // ---------- interleavings ----------

  datatype Event = Banking(op: Op) | Synchronise

  function OpsOf(events: seq<Event>): seq<Op> {
    if events == [] then []
    else
      var last := events[|events| - 1];
      OpsOf(events[..|events| - 1]) + if last.Banking? then [last.op] else []
  }

  lemma StepExtendsLog(b: Bank, op: Op)
    requires FdsLinked(b.fds, |b.accounts|)
    ensures b.log <= Step(b, op).log
  {
    LogGrows(b, [op]);
    assert [op][..0] == [];
  }

  lemma RunOneMore(b: Bank, ops: seq<Op>, op: Op)
    requires FdsLinked(b.fds, |b.accounts|)
    ensures Run(b, ops + [op]) == Step(Run(b, ops), op)
  {
    assert (ops + [op])[..|ops|] == ops;
  }

  /** From a new ledger, any interleaving of operations and synchronisations between a first and a last synchronisation
      ends with the same books: the opening snapshot and every later recognised row once, in order. They balance, and
      they account for the customer balances. */
  method RunInterleaved(gl: GeneralLedger, b: Bank, events: seq<Event>) returns (after: Bank)
    requires gl.openedAt.None? && gl.entries == []
    requires FdsLinked(b.fds, |b.accounts|) && FdsPositive(b.fds) && NonNegative(b.accounts)
    modifies gl
    ensures after == Run(b, OpsOf(events)) && |b.log| <= |after.log|
    ensures gl.entries == OpeningEntries(b) + Bookings(Journal(after.log), |b.log|, |after.log|)
    ensures TotalDebit(gl.entries) == TotalCredit(gl.entries)
    ensures -NetDebit(gl.entries, C2000)
         == TotalBalance(after.accounts) + Sum(RunLost(b, OpsOf(events))) - InactiveTotal(b.accounts)
            - 2 * (LogBreaks(after.log) - LogBreaks(b.log))
  {
    gl.Sync(b);
    after := b;
    assert events[..0] == [];
    for i := 0 to |events|
      invariant after == Run(b, OpsOf(events[..i]))
      invariant gl.Valid(after.log) && gl.openedAt == Some(|b.log|) && gl.opening == OpeningEntries(b)
    {
      assert events[..i + 1][..i] == events[..i];
      match events[i]
      case Banking(op) =>
        StepExtendsLog(after, op);
        gl.StaysValid(after.log, Step(after, op).log);
        RunOneMore(b, OpsOf(events[..i]), op);
        after := Step(after, op);
      case Synchronise =>
        gl.Sync(after);
        assert OpsOf(events[..i + 1]) == OpsOf(events[..i]);
    }
    assert events[..|events|] == events;
    gl.Sync(after);
    DepositsAccount(b, OpsOf(events), gl.entries);
    RunDebitsEqualCredits(b, OpsOf(events), gl.entries);
  }
}
