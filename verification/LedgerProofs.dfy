/** What every run of the ledger keeps: the stored balances are a cache of the transaction log. */
module LedgerProofs {
  import opened Ledger
  import opened Options

  // ---------- replaying the log ----------

  /** What one row means for an account: credits received, minus debits and the fees on them. */
  function Effect(t: Txn, a: nat): int {
    (if t.to == Some(a) then t.amount else 0) - (if t.from == Some(a) then t.amount + t.fee else 0)
  }

  function Net(log: seq<Txn>, a: nat): int {
    if log == [] then 0 else Net(log[..|log| - 1], a) + Effect(log[|log| - 1], a)
  }

  lemma NetOfAppended(log: seq<Txn>, t: Txn, a: nat)
    ensures Net(log + [t], a) == Net(log, a) + Effect(t, a)
  {
    assert (log + [t])[..|log|] == log;
  }

  /** Every balance is the replay of the log from an opening balance, short by what has been lost. */
  ghost predicate Tracks(b: Bank, opening: seq<int>, lost: seq<int>) {
    && |opening| == |lost| == |b.accounts|
    && forall a :: 0 <= a < |b.accounts| ==> b.accounts[a].balance + lost[a] == opening[a] + Net(b.log, a)
  }

  lemma MoveIsEffect(accounts: seq<Account>, t: Txn, a: nat)
    requires RowsExist(accounts, t) && a < |accounts|
    ensures Move(accounts, t)[a].balance == accounts[a].balance + Effect(t, a)
  {
  }

  lemma ApplyTracks(b: Bank, d: Decision, opening: seq<int>, lost: seq<int>)
    requires Tracks(b, opening, lost) && (d.Book? ==> RowsExist(b.accounts, d.txn))
    ensures Tracks(Apply(b, d), opening, lost)
  {
    if d.Book? {
      forall a | 0 <= a < |b.accounts|
        ensures Apply(b, d).accounts[a].balance + lost[a] == opening[a] + Net(Apply(b, d).log, a)
      {
        MoveIsEffect(b.accounts, d.txn, a);
        NetOfAppended(b.log, Stamped(b.accounts, d.txn), a);
      }
    }
  }

  lemma {:induction false} InterestTracks(b: Bank, i: nat, branch: string, opening: seq<int>, lost: seq<int>)
    requires i <= |b.accounts| && Tracks(b, opening, lost)
    ensures Tracks(InterestFrom(b, i, branch), opening, lost)
    decreases |b.accounts| - i
  {
    if i < |b.accounts| {
      ApplyTracks(b, DecideInterest(b, i, branch), opening, lost);
      InterestTracks(Apply(b, DecideInterest(b, i, branch)), i + 1, branch, opening, lost);
    }
  }

  lemma BeforeMaturityTracks(b: Bank, branch: string, recent: set<nat>, opening: seq<int>, lost: seq<int>)
    requires Tracks(b, opening, lost)
    ensures Tracks(BeforeMaturity(b, branch, recent), opening, lost)
  {
    InterestTracks(b, 0, branch, opening, lost);
  }

  // ---------- the maturity pass ----------

  /** What maturing deposit i overwrites: credits the account received earlier in the same pass. */
  function LoseAt(b: Bank, before: seq<Account>, i: nat, lost: seq<int>): (after: seq<int>)
    requires i < |b.fds| && |before| == |b.accounts| == |lost| && b.fds[i].account < |b.accounts|
    ensures |after| == |lost|
  {
    var a := b.fds[i].account;
    lost[a := lost[a] + b.accounts[a].balance - before[a].balance]
  }

  function MatureLost(b: Bank, before: seq<Account>, i: nat, branch: string, today: int, reading: Reading,
                      lost: seq<int>): (after: seq<int>)
    requires i <= |b.fds| && |before| == |b.accounts| == |lost| && FdsLinked(b.fds, |b.accounts|)
    ensures |after| == |lost|
    decreases |b.fds| - i
  {
    if i == |b.fds| then lost
    else
      var after := if Due(b.fds[i], branch, today) then LoseAt(b, Seen(b, before, reading), i, lost) else lost;
      MatureLost(MatureIfDue(b, before, i, branch, today, reading), before, i + 1, branch, today, reading, after)
  }

  lemma MatureTracks(b: Bank, before: seq<Account>, i: nat, opening: seq<int>, lost: seq<int>)
    requires i < |b.fds| && |before| == |b.accounts| && b.fds[i].account < |b.accounts| && Tracks(b, opening, lost)
    ensures Tracks(Mature(b, before, i), opening, LoseAt(b, before, i, lost))
  {
    var c := Mature(b, before, i);
    forall a | 0 <= a < |b.accounts|
      ensures c.accounts[a].balance + LoseAt(b, before, i, lost)[a] == opening[a] + Net(c.log, a)
    {
      NetOfAppended(b.log, c.log[|b.log|], a);
    }
  }

  lemma {:induction false} MaturePassTracks(b: Bank, before: seq<Account>, i: nat, branch: string, today: int,
                                            reading: Reading, opening: seq<int>, lost: seq<int>)
    requires i <= |b.fds| && |before| == |b.accounts| && FdsLinked(b.fds, |b.accounts|) && Tracks(b, opening, lost)
    ensures Tracks(MatureFrom(b, before, i, branch, today, reading), opening,
                   MatureLost(b, before, i, branch, today, reading, lost))
    decreases |b.fds| - i
  {
    if i < |b.fds| {
      var c, after := MatureIfDue(b, before, i, branch, today, reading), lost;
      if Due(b.fds[i], branch, today) {
        MatureTracks(b, Seen(b, before, reading), i, opening, lost);
        after := LoseAt(b, Seen(b, before, reading), i, lost);
      }
      MaturePassTracks(c, before, i + 1, branch, today, reading, opening, after);
    }
  }

  // ---------- when the pass loses money ----------

  predicate FdsPositive(fds: seq<FixedDeposit>) {
    forall i :: 0 <= i < |fds| ==> fds[i].principal > 0 && fds[i].maturityAmount > 0
  }

  /** No two deposits that are due in the run pay into the same account. */
  predicate OneDuePerAccount(fds: seq<FixedDeposit>, branch: string, today: int) {
    forall i, j :: 0 <= i < j < |fds| && Due(fds[i], branch, today) && Due(fds[j], branch, today) ==>
      fds[i].account != fds[j].account
  }

  /** From deposit i on, no due deposit pays into an account in `paid`, nor two into the same one. */
  predicate Undisturbed(fds: seq<FixedDeposit>, i: nat, paid: set<nat>, branch: string, today: int) {
    && (forall j :: i <= j < |fds| && Due(fds[j], branch, today) ==> fds[j].account !in paid)
    && (forall j, k :: i <= j < k < |fds| && Due(fds[j], branch, today) && Due(fds[k], branch, today) ==>
          fds[j].account != fds[k].account)
  }

  /** During the pass the paid accounts are above, all others at their balance before the pass. */
  predicate PaidAbove(accounts: seq<Account>, before: seq<Account>, paid: set<nat>)
    requires |accounts| == |before|
  {
    forall a :: 0 <= a < |accounts| ==>
      if a in paid then accounts[a].balance > before[a].balance else accounts[a].balance == before[a].balance
  }

  predicate NoLess(x: seq<int>, y: seq<int>)
    requires |x| == |y|
  {
    forall a :: 0 <= a < |x| ==> x[a] <= y[a]
  }

  /** A pass that reads current balances loses nothing. */
  lemma {:induction false} CurrentLosesNothing(b: Bank, before: seq<Account>, i: nat, branch: string, today: int,
                                               lost: seq<int>)
    requires i <= |b.fds| && |before| == |b.accounts| == |lost| && FdsLinked(b.fds, |b.accounts|)
    ensures MatureLost(b, before, i, branch, today, Current, lost) == lost
    decreases |b.fds| - i
  {
    if i < |b.fds| {
      assert LoseAt(b, b.accounts, i, lost) == lost;
      CurrentLosesNothing(MatureIfDue(b, before, i, branch, today, Current), before, i + 1, branch, today, lost);
    }
  }

  /** A pass that reads the balances from before it never gains anything, and loses nothing exactly when it is
      undisturbed. */
  lemma {:induction false} PassLoses(b: Bank, before: seq<Account>, i: nat, paid: set<nat>, branch: string, today: int,
                                     lost: seq<int>)
    requires i <= |b.fds| && |before| == |b.accounts| == |lost| && FdsLinked(b.fds, |b.accounts|) && FdsPositive(b.fds)
    requires PaidAbove(b.accounts, before, paid)
    ensures NoLess(lost, MatureLost(b, before, i, branch, today, BeforePass, lost))
    ensures MatureLost(b, before, i, branch, today, BeforePass, lost) == lost
       <==> Undisturbed(b.fds, i, paid, branch, today)
    decreases |b.fds| - i, 1
  {
    if i < |b.fds| {
      if Due(b.fds[i], branch, today) {
        PassLosesDue(b, before, i, paid, branch, today, lost);
      } else {
        PassLosesOther(b, before, i, paid, branch, today, lost);
      }
    }
  }

  lemma {:induction false} PassLosesDue(b: Bank, before: seq<Account>, i: nat, paid: set<nat>, branch: string,
                                        today: int, lost: seq<int>)
    requires i < |b.fds| && |before| == |b.accounts| == |lost| && FdsLinked(b.fds, |b.accounts|) && FdsPositive(b.fds)
    requires PaidAbove(b.accounts, before, paid) && Due(b.fds[i], branch, today)
    ensures NoLess(lost, MatureLost(b, before, i, branch, today, BeforePass, lost))
    ensures MatureLost(b, before, i, branch, today, BeforePass, lost) == lost
       <==> Undisturbed(b.fds, i, paid, branch, today)
    decreases |b.fds| - i, 0
  {
    var c, next, lost' := Mature(b, before, i), paid + {b.fds[i].account}, LoseAt(b, before, i, lost);
    PaidStep(b, before, i, paid);
    assert FdsPositive(c.fds) && FdsLinked(c.fds, |c.accounts|);
    PassLoses(c, before, i + 1, next, branch, today, lost');
    var final := MatureLost(c, before, i + 1, branch, today, BeforePass, lost');
    DueLoses(b, before, i, paid, branch, today, lost, lost', final, c.fds, next);
  }

  lemma {:induction false} PassLosesOther(b: Bank, before: seq<Account>, i: nat, paid: set<nat>, branch: string,
                                          today: int, lost: seq<int>)
    requires i < |b.fds| && |before| == |b.accounts| == |lost| && FdsLinked(b.fds, |b.accounts|) && FdsPositive(b.fds)
    requires PaidAbove(b.accounts, before, paid) && !Due(b.fds[i], branch, today)
    ensures NoLess(lost, MatureLost(b, before, i, branch, today, BeforePass, lost))
    ensures MatureLost(b, before, i, branch, today, BeforePass, lost) == lost
       <==> Undisturbed(b.fds, i, paid, branch, today)
    decreases |b.fds| - i, 0
  {
    PassLoses(b, before, i + 1, paid, branch, today, lost);
  }

  lemma DueLoses(b: Bank, before: seq<Account>, i: nat, paid: set<nat>, branch: string, today: int, lost: seq<int>,
                 lost': seq<int>, final: seq<int>, after: seq<FixedDeposit>, next: set<nat>)
    requires i < |b.fds| && |before| == |b.accounts| == |lost| == |final| && b.fds[i].account < |b.accounts|
    requires PaidAbove(b.accounts, before, paid) && Due(b.fds[i], branch, today)
    requires lost' == LoseAt(b, before, i, lost) && after == Mature(b, before, i).fds
    requires next == paid + {b.fds[i].account}
    requires NoLess(lost', final) && (final == lost' <==> Undisturbed(after, i + 1, next, branch, today))
    ensures NoLess(lost, final) && (final == lost <==> Undisturbed(b.fds, i, paid, branch, today))
  {
    var a := b.fds[i].account;
    UndisturbedStep(b.fds, after, i, paid, branch, today);
    LossAdds(lost, lost', final, a, b.accounts[a].balance - before[a].balance);
  }

  lemma PaidStep(b: Bank, before: seq<Account>, i: nat, paid: set<nat>)
    requires i < |b.fds| && |before| == |b.accounts| && b.fds[i].account < |b.accounts| && b.fds[i].maturityAmount > 0
    requires PaidAbove(b.accounts, before, paid)
    ensures PaidAbove(Mature(b, before, i).accounts, before, paid + {b.fds[i].account})
  {
  }

  lemma LossAdds(lost: seq<int>, lost': seq<int>, final: seq<int>, a: nat, loss: int)
    requires a < |lost| == |lost'| == |final| && loss >= 0 && lost' == lost[a := lost[a] + loss] && NoLess(lost', final)
    ensures NoLess(lost, final) && (final == lost <==> final == lost' && loss == 0)
  {
    if loss == 0 { assert lost' == lost; }
  }

  lemma UndisturbedStep(fds: seq<FixedDeposit>, after: seq<FixedDeposit>, i: nat, paid: set<nat>, branch: string,
                        today: int)
    requires i < |fds| == |after| && Due(fds[i], branch, today)
    requires forall j :: i < j < |fds| ==> after[j] == fds[j]
    ensures Undisturbed(fds, i, paid, branch, today)
       <==> fds[i].account !in paid && Undisturbed(after, i + 1, paid + {fds[i].account}, branch, today)
  {
    assert Due(fds[i], branch, today);
    assert forall j :: i < j < |fds| ==> (Due(after[j], branch, today) <==> Due(fds[j], branch, today));
  }

  // ---------- runs ----------

  function Zeros(n: nat): (z: seq<int>)
    ensures |z| == n
  {
    seq(n, i => 0)
  }

  function OpLost(b: Bank, op: Op, lost: seq<int>): (after: seq<int>)
    requires FdsLinked(b.fds, |b.accounts|) && |lost| == |b.accounts|
    ensures |after| == |lost|
  {
    if op.Eod? then
      var c := BeforeMaturity(b, op.branch, op.recent);
      MatureLost(c, c.accounts, 0, op.branch, op.today, op.reading, lost)
    else lost
  }

  /** What the end-of-day runs of a sequence of operations overwrite, per account. */
  function RunLost(b: Bank, ops: seq<Op>): (lost: seq<int>)
    requires FdsLinked(b.fds, |b.accounts|)
    ensures |lost| == |b.accounts|
  {
    if ops == [] then Zeros(|b.accounts|)
    else OpLost(Run(b, ops[..|ops| - 1]), ops[|ops| - 1], RunLost(b, ops[..|ops| - 1]))
  }

  lemma StepTracks(b: Bank, op: Op, opening: seq<int>, lost: seq<int>)
    requires FdsLinked(b.fds, |b.accounts|) && Tracks(b, opening, lost)
    ensures Tracks(Step(b, op), opening, OpLost(b, op, lost))
  {
    if op.Eod? {
      var c := BeforeMaturity(b, op.branch, op.recent);
      BeforeMaturityTracks(b, op.branch, op.recent, opening, lost);
      MaturePassTracks(c, c.accounts, 0, op.branch, op.today, op.reading, opening, lost);
    } else {
      ApplyTracks(b, Decide(b, op), opening, lost);
    }
  }

  /** Every balance, in every reachable state: the opening balance plus logged credits minus logged debits and
      debit-side fees, minus exactly what end-of-day runs have overwritten. */
  lemma {:induction false} RunTracks(b: Bank, ops: seq<Op>, opening: seq<int>)
    requires FdsLinked(b.fds, |b.accounts|) && Tracks(b, opening, Zeros(|b.accounts|))
    ensures Tracks(Run(b, ops), opening, RunLost(b, ops))
  {
    if ops != [] {
      RunTracks(b, ops[..|ops| - 1], opening);
      StepTracks(Run(b, ops[..|ops| - 1]), ops[|ops| - 1], opening, RunLost(b, ops[..|ops| - 1]));
    }
  }

  /** An end-of-day run that reads the balances from before its maturity pass meets two due deposits that pay into one
      account. */
  predicate Collides(b: Bank, op: Op) {
    op.Eod? && op.reading.BeforePass? && !OneDuePerAccount(b.fds, op.branch, op.today)
  }

  /** No step of a run does. */
  predicate SingleMaturities(b: Bank, ops: seq<Op>)
    requires FdsLinked(b.fds, |b.accounts|)
  {
    ops == [] ||
    var c, op := Run(b, ops[..|ops| - 1]), ops[|ops| - 1];
    SingleMaturities(b, ops[..|ops| - 1]) && !Collides(c, op)
  }

  lemma MaturityPositive(principal: int, rate: real, tenure: int)
    requires principal > 0 && rate >= 0.0 && tenure >= 0
    ensures MaturityAmount(principal, rate, tenure) > 0
  {
    var p, x, y := principal as real, rate / 100.0, tenure as real / 12.0;
    assert p * x >= 0.0;
    assert (p * x) * y >= 0.0;
  }

  lemma {:induction false} MatureKeepsPositive(b: Bank, before: seq<Account>, i: nat, branch: string, today: int,
                                               reading: Reading)
    requires i <= |b.fds| && |before| == |b.accounts| && FdsLinked(b.fds, |b.accounts|) && FdsPositive(b.fds)
    ensures FdsPositive(MatureFrom(b, before, i, branch, today, reading).fds)
    decreases |b.fds| - i
  {
    if i < |b.fds| {
      MatureKeepsPositive(MatureIfDue(b, before, i, branch, today, reading), before, i + 1, branch, today, reading);
    }
  }

  lemma StepKeepsPositive(b: Bank, op: Op)
    requires FdsLinked(b.fds, |b.accounts|) && FdsPositive(b.fds)
    ensures FdsPositive(Step(b, op).fds)
  {
    if op.Eod? {
      var c := BeforeMaturity(b, op.branch, op.recent);
      MatureKeepsPositive(c, c.accounts, 0, op.branch, op.today, op.reading);
    } else if op.FdCreate? && FdRate(op.tenure).Some? && op.amount >= 100000 {
      MaturityPositive(op.amount, FdRate(op.tenure).value, op.tenure);
    }
  }

  lemma {:induction false} RunKeepsPositive(b: Bank, ops: seq<Op>)
    requires FdsLinked(b.fds, |b.accounts|) && FdsPositive(b.fds)
    ensures FdsPositive(Run(b, ops).fds)
  {
    if ops != [] {
      RunKeepsPositive(b, ops[..|ops| - 1]);
      StepKeepsPositive(Run(b, ops[..|ops| - 1]), ops[|ops| - 1]);
    }
  }

  lemma StepLosesNothing(b: Bank, op: Op, lost: seq<int>)
    requires FdsLinked(b.fds, |b.accounts|) && FdsPositive(b.fds) && |lost| == |b.accounts|
    ensures NoLess(lost, OpLost(b, op, lost))
    ensures OpLost(b, op, lost) == lost <==> !Collides(b, op)
  {
    if op.Eod? {
      var c := BeforeMaturity(b, op.branch, op.recent);
      if op.reading.Current? {
        CurrentLosesNothing(c, c.accounts, 0, op.branch, op.today, lost);
      } else {
        PassLoses(c, c.accounts, 0, {}, op.branch, op.today, lost);
      }
    }
  }

  /** A run loses nothing exactly when no end-of-day run meets two due deposits for one account. */
  lemma {:induction false} RunLosesNothing(b: Bank, ops: seq<Op>, zeros: seq<int>)
    requires FdsLinked(b.fds, |b.accounts|) && FdsPositive(b.fds) && zeros == Zeros(|b.accounts|)
    ensures NoLess(zeros, RunLost(b, ops))
    ensures RunLost(b, ops) == zeros <==> SingleMaturities(b, ops)
  {
    if ops != [] {
      var prefix := ops[..|ops| - 1];
      RunLosesNothing(b, prefix, zeros);
      RunKeepsPositive(b, prefix);
      StepLosesNothing(Run(b, prefix), ops[|ops| - 1], RunLost(b, prefix));
      Squeeze(zeros, RunLost(b, prefix), RunLost(b, ops));
    }
  }

  lemma Squeeze(x: seq<int>, y: seq<int>, z: seq<int>)
    requires |x| == |y| == |z| && NoLess(x, y) && NoLess(y, z)
    ensures NoLess(x, z) && (z == x ==> y == x)
  {
  }

  /** The balance cache agrees with the log for every account. */
  ghost predicate CacheFaithful(b: Bank, opening: seq<int>) {
    Tracks(b, opening, Zeros(|b.accounts|))
  }

  /** Over every run, the stored balances are the replay of the log exactly when no end-of-day run of it read the
      balances from before its maturity pass and met two due deposits that pay into one account; the first such run
      falsifies the cache for good. */
  lemma CacheFaithfulIff(b: Bank, ops: seq<Op>, opening: seq<int>)
    requires FdsLinked(b.fds, |b.accounts|) && FdsPositive(b.fds) && CacheFaithful(b, opening)
    ensures CacheFaithful(Run(b, ops), opening) <==> SingleMaturities(b, ops)
  {
    var c, lost, zeros := Run(b, ops), RunLost(b, ops), Zeros(|b.accounts|);
    RunTracks(b, ops, opening);
    RunLosesNothing(b, ops, zeros);
    if CacheFaithful(c, opening) {
      forall a | 0 <= a < |lost| ensures lost[a] == zeros[a] {
        assert c.accounts[a].balance + lost[a] == c.accounts[a].balance + zeros[a];
      }
    }
  }

  /** A bank with two deposits that are due on the same day and pay into the same account. */
  const TWO_DUE: Bank := Bank([Account("ram", "ktm", 0, 0, true, true, false, 5.0)],
                              [FixedDeposit("ram", 0, "ktm", 100000, 108000, 360, ACTIVE),
                               FixedDeposit("ram", 0, "ktm", 100000, 108000, 360, ACTIVE)], [])

  /** One end-of-day run on that day, and the balances no longer are the replay of the log. */
  lemma TwoDueUnfaithful()
    ensures CacheFaithful(TWO_DUE, [0])
    ensures !CacheFaithful(Run(TWO_DUE, [Eod("ktm", 360, {}, BeforePass)]), [0])
  {
    var ops := [Eod("ktm", 360, {}, BeforePass)];
    assert ops[..0] == [] && Run(TWO_DUE, ops[..0]) == TWO_DUE;
    assert Due(TWO_DUE.fds[0], "ktm", 360) && Due(TWO_DUE.fds[1], "ktm", 360);
    assert Collides(TWO_DUE, ops[0]);
    CacheFaithfulIff(TWO_DUE, ops, [0]);
  }

  predicate ReadsCurrent(ops: seq<Op>) {
    forall i :: 0 <= i < |ops| && ops[i].Eod? ==> ops[i].reading.Current?
  }

  /** If the query sees current balances, they always are. */
  lemma {:induction false} CurrentNeverCollides(b: Bank, ops: seq<Op>)
    requires FdsLinked(b.fds, |b.accounts|) && ReadsCurrent(ops)
    ensures SingleMaturities(b, ops)
  {
    if ops != [] { CurrentNeverCollides(b, ops[..|ops| - 1]); }
  }

  lemma CurrentReadingFaithful(b: Bank, ops: seq<Op>, opening: seq<int>)
    requires FdsLinked(b.fds, |b.accounts|) && FdsPositive(b.fds) && CacheFaithful(b, opening) && ReadsCurrent(ops)
    ensures CacheFaithful(Run(b, ops), opening)
  {
    CurrentNeverCollides(b, ops);
    CacheFaithfulIff(b, ops, opening);
  }

  // ---------- stamps and signs ----------

  predicate NonNegative(accounts: seq<Account>) {
    forall a :: 0 <= a < |accounts| ==> accounts[a].balance >= 0
  }

  /** Row i records the replayed balance of its subject. */
  ghost predicate StampOk(log: seq<Txn>, opening: seq<int>, i: nat)
    requires i < |log|
  {
    && (log[i].from.Some? || log[i].to.Some?)
    && Subject(log[i]) < |opening|
    && log[i].balanceAfter == opening[Subject(log[i])] + Net(log[..i + 1], Subject(log[i]))
  }

  ghost predicate StampsOk(log: seq<Txn>, opening: seq<int>, start: nat) {
    forall i :: start <= i < |log| ==> StampOk(log, opening, i)
  }

  lemma StampAppended(log: seq<Txn>, t: Txn, opening: seq<int>, start: nat)
    requires StampsOk(log, opening, start) && (t.from.Some? || t.to.Some?) && Subject(t) < |opening|
    requires t.balanceAfter == opening[Subject(t)] + Net(log, Subject(t)) + Effect(t, Subject(t))
    ensures StampsOk(log + [t], opening, start)
  {
    forall i | start <= i < |log + [t]| ensures StampOk(log + [t], opening, i) {
      if i < |log| {
        assert StampOk(log, opening, i) && (log + [t])[..i + 1] == log[..i + 1];
      } else {
        assert (log + [t])[..i + 1] == log + [t];
        NetOfAppended(log, t, Subject(t));
      }
    }
  }

  lemma ApplyStamps(b: Bank, d: Decision, opening: seq<int>, start: nat)
    requires (d.Book? ==> RowsExist(b.accounts, d.txn)) && CacheFaithful(b, opening) && StampsOk(b.log, opening, start)
    ensures StampsOk(Apply(b, d).log, opening, start)
  {
    if d.Book? {
      var t := Stamped(b.accounts, d.txn);
      MoveIsEffect(b.accounts, d.txn, Subject(t));
      StampAppended(b.log, t, opening, start);
    }
  }

  lemma {:induction false} InterestStamps(b: Bank, i: nat, branch: string, opening: seq<int>, start: nat)
    requires i <= |b.accounts| && CacheFaithful(b, opening) && StampsOk(b.log, opening, start)
    ensures StampsOk(InterestFrom(b, i, branch).log, opening, start)
    decreases |b.accounts| - i
  {
    if i < |b.accounts| {
      var d := DecideInterest(b, i, branch);
      ApplyStamps(b, d, opening, start);
      ApplyTracks(b, d, opening, Zeros(|b.accounts|));
      InterestStamps(Apply(b, d), i + 1, branch, opening, start);
    }
  }

  lemma {:induction false} CurrentStamps(b: Bank, before: seq<Account>, i: nat, branch: string, today: int,
                                         opening: seq<int>, start: nat)
    requires i <= |b.fds| && |before| == |b.accounts| && FdsLinked(b.fds, |b.accounts|)
    requires CacheFaithful(b, opening) && StampsOk(b.log, opening, start)
    ensures StampsOk(MatureFrom(b, before, i, branch, today, Current).log, opening, start)
    decreases |b.fds| - i
  {
    if i < |b.fds| {
      if Due(b.fds[i], branch, today) { MatureStamp(b, b.accounts, i, opening, start); }
      CurrentStamps(MatureIfDue(b, before, i, branch, today, Current), before, i + 1, branch, today, opening, start);
    }
  }

  /** A maturity computed from the account's current balance keeps cache and stamps. */
  lemma MatureStamp(b: Bank, seen: seq<Account>, i: nat, opening: seq<int>, start: nat)
    requires i < |b.fds| && |seen| == |b.accounts| && b.fds[i].account < |b.accounts|
    requires seen[b.fds[i].account].balance == b.accounts[b.fds[i].account].balance
    requires CacheFaithful(b, opening) && StampsOk(b.log, opening, start)
    ensures CacheFaithful(Mature(b, seen, i), opening) && StampsOk(Mature(b, seen, i).log, opening, start)
  {
    var c, zeros := Mature(b, seen, i), Zeros(|b.accounts|);
    StampAppended(b.log, c.log[|b.log|], opening, start);
    MatureTracks(b, seen, i, opening, zeros);
    assert LoseAt(b, seen, i, zeros) == zeros;
  }

  /** A maturity computed from an outdated balance writes a wrong stamp. */
  lemma OutdatedStamp(b: Bank, seen: seq<Account>, i: nat, opening: seq<int>)
    requires i < |b.fds| && |seen| == |b.accounts| && b.fds[i].account < |b.accounts|
    requires seen[b.fds[i].account].balance != b.accounts[b.fds[i].account].balance && CacheFaithful(b, opening)
    ensures !StampOk(Mature(b, seen, i).log, opening, |b.log|)
  {
    var c := Mature(b, seen, i);
    assert c.log[..|b.log| + 1] == c.log;
    NetOfAppended(b.log, c.log[|b.log|], b.fds[i].account);
  }

  lemma StampsOfPrefix(log: seq<Txn>, longer: seq<Txn>, opening: seq<int>, start: nat)
    requires log <= longer && StampsOk(longer, opening, start)
    ensures StampsOk(log, opening, start)
  {
    forall i | start <= i < |log| ensures StampOk(log, opening, i) {
      assert StampOk(longer, opening, i) && log[..i + 1] == longer[..i + 1];
    }
  }

  /** A pass over the balances from before it writes correct stamps exactly when it is undisturbed. */
  lemma {:induction false} MatureStamps(b: Bank, before: seq<Account>, i: nat, paid: set<nat>, branch: string,
                                        today: int, opening: seq<int>, start: nat)
    requires i <= |b.fds| && |before| == |b.accounts| && FdsLinked(b.fds, |b.accounts|) && FdsPositive(b.fds)
    requires PaidAbove(b.accounts, before, paid)
    requires CacheFaithful(b, opening) && StampsOk(b.log, opening, start) && start <= |b.log|
    ensures StampsOk(MatureFrom(b, before, i, branch, today, BeforePass).log, opening, start)
       <==> Undisturbed(b.fds, i, paid, branch, today)
    decreases |b.fds| - i
  {
    if i < |b.fds| {
      if Due(b.fds[i], branch, today) {
        if b.fds[i].account in paid {
          PaidAgain(b, before, i, paid, branch, today, opening, start);
        } else {
          var c, next := Mature(b, before, i), paid + {b.fds[i].account};
          PaidFirst(b, before, i, paid, branch, today, opening, start, c, next);
          MatureStamps(c, before, i + 1, next, branch, today, opening, start);
        }
      } else {
        MatureStamps(b, before, i + 1, paid, branch, today, opening, start);
      }
    }
  }

  lemma PaidAgain(b: Bank, before: seq<Account>, i: nat, paid: set<nat>, branch: string, today: int,
                  opening: seq<int>, start: nat)
    requires i < |b.fds| && |before| == |b.accounts| && FdsLinked(b.fds, |b.accounts|) && start <= |b.log|
    requires PaidAbove(b.accounts, before, paid) && CacheFaithful(b, opening)
    requires Due(b.fds[i], branch, today) && b.fds[i].account in paid
    ensures !StampsOk(MatureFrom(b, before, i, branch, today, BeforePass).log, opening, start)
    ensures !Undisturbed(b.fds, i, paid, branch, today)
  {
    OutdatedStamp(b, before, i, opening);
    WrongForGood(Mature(b, before, i), before, i + 1, branch, today, opening, start, |b.log|);
  }

  lemma PaidFirst(b: Bank, before: seq<Account>, i: nat, paid: set<nat>, branch: string, today: int,
                  opening: seq<int>, start: nat, c: Bank, next: set<nat>)
    requires i < |b.fds| && |before| == |b.accounts| && FdsLinked(b.fds, |b.accounts|) && FdsPositive(b.fds)
    requires PaidAbove(b.accounts, before, paid) && CacheFaithful(b, opening) && StampsOk(b.log, opening, start)
    requires Due(b.fds[i], branch, today) && b.fds[i].account !in paid
    requires c == Mature(b, before, i) && next == paid + {b.fds[i].account}
    ensures FdsPositive(c.fds) && PaidAbove(c.accounts, before, next)
    ensures CacheFaithful(c, opening) && StampsOk(c.log, opening, start)
    ensures Undisturbed(b.fds, i, paid, branch, today) <==> Undisturbed(c.fds, i + 1, next, branch, today)
  {
    UndisturbedStep(b.fds, c.fds, i, paid, branch, today);
    PaidStep(b, before, i, paid);
    MatureStamp(b, before, i, opening, start);
  }

  lemma WrongForGood(b: Bank, before: seq<Account>, i: nat, branch: string, today: int, opening: seq<int>, start: nat,
                     k: nat)
    requires i <= |b.fds| && |before| == |b.accounts| && FdsLinked(b.fds, |b.accounts|)
    requires start <= k < |b.log| && !StampOk(b.log, opening, k)
    ensures !StampsOk(MatureFrom(b, before, i, branch, today, BeforePass).log, opening, start)
  {
    var longer := MatureFrom(b, before, i, branch, today, BeforePass).log;
    MatureLogGrows(b, before, i, branch, today, BeforePass);
    if StampsOk(longer, opening, start) { StampsOfPrefix(b.log, longer, opening, start); }
  }

  lemma StepStamps(b: Bank, op: Op, opening: seq<int>, start: nat)
    requires FdsLinked(b.fds, |b.accounts|) && FdsPositive(b.fds) && CacheFaithful(b, opening)
    requires StampsOk(b.log, opening, start) && start <= |b.log|
    ensures StampsOk(Step(b, op).log, opening, start) <==> !Collides(b, op)
  {
    if op.Eod? {
      EodStamps(b, op.branch, op.today, op.recent, op.reading, opening, start);
    } else {
      ApplyStamps(b, Decide(b, op), opening, start);
    }
  }

  lemma EodStamps(b: Bank, branch: string, today: int, recent: set<nat>, reading: Reading, opening: seq<int>,
                  start: nat)
    requires FdsLinked(b.fds, |b.accounts|) && FdsPositive(b.fds) && CacheFaithful(b, opening)
    requires StampsOk(b.log, opening, start) && start <= |b.log|
    ensures StampsOk(RunEod(b, branch, today, recent, reading).log, opening, start)
       <==> reading.Current? || OneDuePerAccount(b.fds, branch, today)
  {
    var e := BeforeMaturity(b, branch, recent);
    InterestStamps(b, 0, branch, opening, start);
    InterestLogGrows(b, 0, branch);
    BeforeMaturityTracks(b, branch, recent, opening, Zeros(|b.accounts|));
    if reading.Current? {
      CurrentStamps(e, e.accounts, 0, branch, today, opening, start);
    } else {
      MatureStamps(e, e.accounts, 0, {}, branch, today, opening, start);
    }
  }

  /** Over every run, each row written records the replayed balance of its account at that point exactly when the run
      has no such double maturity. */
  lemma {:induction false} RunStamps(b: Bank, ops: seq<Op>, opening: seq<int>)
    requires FdsLinked(b.fds, |b.accounts|) && FdsPositive(b.fds) && CacheFaithful(b, opening)
    ensures StampsOk(Run(b, ops).log, opening, |b.log|) <==> SingleMaturities(b, ops)
  {
    if ops != [] {
      var prefix, op := ops[..|ops| - 1], ops[|ops| - 1];
      var c := Run(b, prefix);
      RunStamps(b, prefix, opening);
      LogGrows(b, prefix);
      if SingleMaturities(b, prefix) {
        CacheFaithfulIff(b, prefix, opening);
        RunKeepsPositive(b, prefix);
        StepStamps(c, op, opening, |b.log|);
      } else {
        StepLogGrows(c, op);
        if StampsOk(Step(c, op).log, opening, |b.log|) { StampsOfPrefix(c.log, Step(c, op).log, opening, |b.log|); }
      }
    }
  }

  lemma ApplyNonNegative(b: Bank, op: Op)
    requires !op.Eod? && NonNegative(b.accounts) && FdsPositive(b.fds)
    ensures NonNegative(Apply(b, Decide(b, op)).accounts)
  {
  }

  lemma {:induction false} InterestNonNegative(b: Bank, i: nat, branch: string)
    requires i <= |b.accounts| && NonNegative(b.accounts)
    ensures NonNegative(InterestFrom(b, i, branch).accounts)
    decreases |b.accounts| - i
  {
    if i < |b.accounts| { InterestNonNegative(Apply(b, DecideInterest(b, i, branch)), i + 1, branch); }
  }

  lemma {:induction false} MatureNonNegative(b: Bank, before: seq<Account>, i: nat, branch: string, today: int,
                                             reading: Reading)
    requires i <= |b.fds| && |before| == |b.accounts| && FdsLinked(b.fds, |b.accounts|) && FdsPositive(b.fds)
    requires NonNegative(b.accounts) && NonNegative(before)
    ensures NonNegative(MatureFrom(b, before, i, branch, today, reading).accounts)
    decreases |b.fds| - i
  {
    if i < |b.fds| {
      MatureNonNegative(MatureIfDue(b, before, i, branch, today, reading), before, i + 1, branch, today, reading);
    }
  }

  /** No balance is ever negative, double maturities or not. */
  lemma {:induction false} RunNonNegative(b: Bank, ops: seq<Op>)
    requires FdsLinked(b.fds, |b.accounts|) && FdsPositive(b.fds) && NonNegative(b.accounts)
    ensures NonNegative(Run(b, ops).accounts)
  {
    if ops != [] {
      var c, op := Run(b, ops[..|ops| - 1]), ops[|ops| - 1];
      RunNonNegative(b, ops[..|ops| - 1]);
      RunKeepsPositive(b, ops[..|ops| - 1]);
      if op.Eod? {
        var e := BeforeMaturity(c, op.branch, op.recent);
        InterestNonNegative(c, 0, op.branch);
        MatureNonNegative(e, e.accounts, 0, op.branch, op.today, op.reading);
      } else {
        ApplyNonNegative(c, op);
      }
    }
  }

  // ---------- the log only grows ----------

  lemma {:induction false} LogGrows(b: Bank, ops: seq<Op>)
    requires FdsLinked(b.fds, |b.accounts|)
    ensures b.log <= Run(b, ops).log
  {
    if ops != [] {
      LogGrows(b, ops[..|ops| - 1]);
      StepLogGrows(Run(b, ops[..|ops| - 1]), ops[|ops| - 1]);
    }
  }

  lemma StepLogGrows(b: Bank, op: Op)
    requires FdsLinked(b.fds, |b.accounts|)
    ensures b.log <= Step(b, op).log
  {
    if op.Eod? {
      var e := BeforeMaturity(b, op.branch, op.recent);
      InterestLogGrows(b, 0, op.branch);
      MatureLogGrows(e, e.accounts, 0, op.branch, op.today, op.reading);
    }
  }

  lemma {:induction false} InterestLogGrows(b: Bank, i: nat, branch: string)
    requires i <= |b.accounts|
    ensures b.log <= InterestFrom(b, i, branch).log
    decreases |b.accounts| - i
  {
    if i < |b.accounts| { InterestLogGrows(Apply(b, DecideInterest(b, i, branch)), i + 1, branch); }
  }

  lemma {:induction false} MatureLogGrows(b: Bank, before: seq<Account>, i: nat, branch: string, today: int,
                                          reading: Reading)
    requires i <= |b.fds| && |before| == |b.accounts| && FdsLinked(b.fds, |b.accounts|)
    ensures b.log <= MatureFrom(b, before, i, branch, today, reading).log
    decreases |b.fds| - i
  {
    if i < |b.fds| {
      MatureLogGrows(MatureIfDue(b, before, i, branch, today, reading), before, i + 1, branch, today, reading);
    }
  }
}
