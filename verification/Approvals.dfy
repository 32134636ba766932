/** Maker-checker approvals (`go_bff/approvals.go`, `cashier.go`): teller withdrawals above the automatic limit are
    queued, and run only when somebody other than the maker approves them. */
module Approvals {
  import BankHandlers
  import opened Ledger
  import opened LedgerProofs
  import opened Options

  const TELLER_AUTO_LIMIT: int := 10000000  // NPR 100,000 in paisa

  datatype Status = PENDING | APPROVED | REJECTED | FAILED

  /** A queued teller withdrawal. */
  datatype Request = Request(account: nat, amount: int, requestedBy: string, status: Status, reviewedBy: Option<string>)

  datatype Desk = Desk(bank: Bank, requests: seq<Request>)

  datatype DeskOp =
    | Withdraw(account: nat, amount: int, cashier: string)
    | Decision(id: nat, reviewer: string, approve: bool)
    | Banking(op: Op)

  function Enqueue(d: Desk, account: nat, amount: int, cashier: string): Desk {
    d.(requests := d.requests + [Request(account, amount, cashier, PENDING, None)])
  }

  function DeskWithdraw(d: Desk, account: nat, amount: int, cashier: string): Desk {
    if amount <= 0 then d
    else if amount > TELLER_AUTO_LIMIT then Enqueue(d, account, amount, cashier)
    else d.(bank := Apply(d.bank, DecideWithdraw(d.bank, account, amount)))
  }

  function Reviewed(d: Desk, id: nat, reviewer: string, status: Status): Desk
    requires id < |d.requests|
  {
    d.(requests := d.requests[id := d.requests[id].(status := status, reviewedBy := Some(reviewer))])
  }

  function DeskDecide(d: Desk, id: nat, reviewer: string, approve: bool): Desk {
    if id >= |d.requests| || d.requests[id].status != PENDING || reviewer == d.requests[id].requestedBy then d
    else if !approve then Reviewed(d, id, reviewer, REJECTED)
    else
      var r := d.requests[id];
      var decision := DecideWithdraw(d.bank, r.account, r.amount);
      Reviewed(d.(bank := Apply(d.bank, decision)), id, reviewer, if decision.Book? then APPROVED else FAILED)
  }

  /** A teller withdrawal reaches the bank only through the desk. */
  predicate DeskAllows(op: DeskOp) {
    op.Banking? ==> !op.op.TellerWithdraw?
  }

  function DeskStep(d: Desk, op: DeskOp): (after: Desk)
    requires FdsLinked(d.bank.fds, |d.bank.accounts|)
    ensures FdsLinked(after.bank.fds, |after.bank.accounts|)
  {
    match op
    case Withdraw(account, amount, cashier) => DeskWithdraw(d, account, amount, cashier)
    case Decision(id, reviewer, approve) => DeskDecide(d, id, reviewer, approve)
    case Banking(op) => d.(bank := Step(d.bank, op))
  }

  function DeskRun(d: Desk, ops: seq<DeskOp>): (after: Desk)
    requires FdsLinked(d.bank.fds, |d.bank.accounts|)
    ensures FdsLinked(after.bank.fds, |after.bank.accounts|)
  {
    if ops == [] then d else DeskStep(DeskRun(d, ops[..|ops| - 1]), ops[|ops| - 1])
  }

  // ---------- four eyes ----------

  /** How often the log holds an over-limit teller withdrawal of this amount from this account. */
  function LargeCount(log: seq<Txn>, account: nat, amount: int): nat {
    if log == [] then 0
    else LargeCount(log[..|log| - 1], account, amount) + if IsLarge(log[|log| - 1], account, amount) then 1 else 0
  }

  predicate IsLarge(t: Txn, account: nat, amount: int) {
    t.kind == WITHDRAWAL && t.amount > TELLER_AUTO_LIMIT && t.from == Some(account) && t.amount == amount
  }

  /** How often such a withdrawal has been approved. */
  function ApprovedCount(requests: seq<Request>, account: nat, amount: int): nat {
    if requests == [] then 0
    else ApprovedCount(requests[..|requests| - 1], account, amount)
         + if IsApproved(requests[|requests| - 1], account, amount) then 1 else 0
  }

  predicate IsApproved(r: Request, account: nat, amount: int) {
    r.status == APPROVED && r.account == account && r.amount == amount
  }

  /** Every request is over the limit, and is unreviewed while pending and reviewed by somebody other than its maker
      afterwards. */
  predicate RequestOk(r: Request) {
    && r.amount > TELLER_AUTO_LIMIT
    && (r.status == PENDING <==> r.reviewedBy.None?)
    && r.reviewedBy != Some(r.requestedBy)
  }

  predicate RequestsOk(requests: seq<Request>) {
    forall i :: 0 <= i < |requests| ==> RequestOk(requests[i])
  }

  predicate SameOrder(r: Request, s: Request) {
    r.account == s.account && r.amount == s.amount && r.requestedBy == s.requestedBy
  }

  /** Requests are never removed, and one that has left PENDING never changes again. */
  predicate Settled(before: seq<Request>, after: seq<Request>) {
    && |before| <= |after|
    && (forall i :: 0 <= i < |before| ==> SameOrder(before[i], after[i]))
    && (forall i :: 0 <= i < |before| && before[i].status != PENDING ==> after[i] == before[i])
  }

  lemma {:induction false} ApprovedUpdate(requests: seq<Request>, after: seq<Request>, id: nat, account: nat,
                                          amount: int)
    requires id < |requests| == |after| && requests[id].status != APPROVED
    requires forall i :: 0 <= i < |requests| && i != id ==> after[i] == requests[i]
    ensures ApprovedCount(after, account, amount)
         == ApprovedCount(requests, account, amount) + if IsApproved(after[id], account, amount) then 1 else 0
  {
    var n := |requests| - 1;
    if id < n {
      ApprovedUpdate(requests[..n], after[..n], id, account, amount);
    } else {
      assert requests[..n] == after[..n];
    }
  }

  predicate NoWithdrawals(log: seq<Txn>, start: nat) {
    forall i :: start <= i < |log| ==> log[i].kind != WITHDRAWAL
  }

  lemma {:induction false} LargeSame(log: seq<Txn>, longer: seq<Txn>, account: nat, amount: int)
    requires log <= longer && NoWithdrawals(longer, |log|)
    ensures LargeCount(longer, account, amount) == LargeCount(log, account, amount)
  {
    if |log| < |longer| {
      LargeSame(log, longer[..|longer| - 1], account, amount);
    } else {
      assert log == longer;
    }
  }

  lemma {:induction false} InterestNoWithdrawals(b: Bank, i: nat, branch: string, start: nat)
    requires i <= |b.accounts| && NoWithdrawals(b.log, start)
    ensures NoWithdrawals(InterestFrom(b, i, branch).log, start)
    decreases |b.accounts| - i
  {
    if i < |b.accounts| { InterestNoWithdrawals(Apply(b, DecideInterest(b, i, branch)), i + 1, branch, start); }
  }

  lemma {:induction false} MaturityNoWithdrawals(b: Bank, before: seq<Account>, i: nat, branch: string, today: int,
                                                 reading: Reading, start: nat)
    requires i <= |b.fds| && |before| == |b.accounts| && FdsLinked(b.fds, |b.accounts|) && NoWithdrawals(b.log, start)
    ensures NoWithdrawals(MatureFrom(b, before, i, branch, today, reading).log, start)
    decreases |b.fds| - i
  {
    if i < |b.fds| {
      var c := MatureIfDue(b, before, i, branch, today, reading);
      MaturityNoWithdrawals(c, before, i + 1, branch, today, reading, start);
    }
  }

  lemma DecideNotWithdrawal(b: Bank, op: Op)
    requires !op.TellerWithdraw? && !op.Eod? && Decide(b, op).Book?
    ensures Decide(b, op).txn.kind != WITHDRAWAL
  {
  }

  /** No other operation books a teller withdrawal. */
  lemma BankingNotLarge(b: Bank, op: Op, account: nat, amount: int)
    requires FdsLinked(b.fds, |b.accounts|) && !op.TellerWithdraw?
    ensures LargeCount(Step(b, op).log, account, amount) == LargeCount(b.log, account, amount)
  {
    if op.Eod? {
      var c := BeforeMaturity(b, op.branch, op.recent);
      InterestNoWithdrawals(b, 0, op.branch, |b.log|);
      MaturityNoWithdrawals(c, c.accounts, 0, op.branch, op.today, op.reading, |b.log|);
    } else if Decide(b, op).Book? {
      DecideNotWithdrawal(b, op);
    }
    LogGrows(b, [op]);
    assert [op][..0] == [];
    LargeSame(b.log, Step(b, op).log, account, amount);
  }

  lemma WithdrawCounts(b: Bank, from: nat, taken: int, account: nat, amount: int)
    ensures var d := DecideWithdraw(b, from, taken);
            LargeCount(Apply(b, d).log, account, amount) == LargeCount(b.log, account, amount)
              + if d.Book? && taken > TELLER_AUTO_LIMIT && from == account && taken == amount then 1 else 0
  {
    assert Apply(b, DecideWithdraw(b, from, taken)).log[..|b.log|] == b.log;
  }

  /** The over-limit withdrawals from `account` of `amount`: `base` and the approved ones. */
  predicate Matches(d: Desk, base: nat, account: nat, amount: int) {
    LargeCount(d.bank.log, account, amount) == base + ApprovedCount(d.requests, account, amount)
  }

  lemma WithdrawKeeps(d: Desk, from: nat, taken: int, cashier: string, base: nat, account: nat, amount: int)
    requires RequestsOk(d.requests) && Matches(d, base, account, amount)
    ensures RequestsOk(DeskWithdraw(d, from, taken, cashier).requests)
    ensures Settled(d.requests, DeskWithdraw(d, from, taken, cashier).requests)
    ensures Matches(DeskWithdraw(d, from, taken, cashier), base, account, amount)
  {
    if taken > TELLER_AUTO_LIMIT {
      EnqueueKeeps(d.requests, Request(from, taken, cashier, PENDING, None), account, amount);
    } else {
      WithdrawCounts(d.bank, from, taken, account, amount);
    }
  }

  lemma EnqueueKeeps(requests: seq<Request>, r: Request, account: nat, amount: int)
    requires RequestsOk(requests) && RequestOk(r) && r.status == PENDING
    ensures RequestsOk(requests + [r]) && Settled(requests, requests + [r])
    ensures ApprovedCount(requests + [r], account, amount) == ApprovedCount(requests, account, amount)
  {
    assert (requests + [r])[..|requests|] == requests;
  }

  lemma DecideKeeps(d: Desk, id: nat, reviewer: string, approve: bool, base: nat, account: nat, amount: int)
    requires RequestsOk(d.requests) && Matches(d, base, account, amount)
    ensures RequestsOk(DeskDecide(d, id, reviewer, approve).requests)
    ensures Settled(d.requests, DeskDecide(d, id, reviewer, approve).requests)
    ensures Matches(DeskDecide(d, id, reviewer, approve), base, account, amount)
  {
    if id < |d.requests| && d.requests[id].status == PENDING && reviewer != d.requests[id].requestedBy {
      var r, e := d.requests[id], DeskDecide(d, id, reviewer, approve);
      ReviewKeeps(d.requests, e.requests, id, reviewer, account, amount);
      WithdrawCounts(d.bank, r.account, r.amount, account, amount);
      assert RequestOk(r);
    }
  }

  lemma ReviewKeeps(requests: seq<Request>, after: seq<Request>, id: nat, reviewer: string, account: nat, amount: int)
    requires RequestsOk(requests) && id < |requests| == |after| && requests[id].status == PENDING != after[id].status
    requires reviewer != requests[id].requestedBy && after[id].reviewedBy == Some(reviewer)
    requires SameOrder(requests[id], after[id])
    requires forall i :: 0 <= i < |requests| && i != id ==> after[i] == requests[i]
    ensures RequestsOk(after) && Settled(requests, after)
    ensures ApprovedCount(after, account, amount)
         == ApprovedCount(requests, account, amount) + if IsApproved(after[id], account, amount) then 1 else 0
  {
    assert RequestOk(requests[id]);
    ApprovedUpdate(requests, after, id, account, amount);
  }

  /** What one step keeps: requests stay sound and settled, and the over-limit withdrawals grow exactly as the
      approved requests do. */
  lemma DeskStepKeeps(d: Desk, op: DeskOp, base: nat, account: nat, amount: int)
    requires FdsLinked(d.bank.fds, |d.bank.accounts|) && DeskAllows(op)
    requires RequestsOk(d.requests) && Matches(d, base, account, amount)
    ensures RequestsOk(DeskStep(d, op).requests) && Settled(d.requests, DeskStep(d, op).requests)
    ensures Matches(DeskStep(d, op), base, account, amount)
  {
    match op
    case Withdraw(from, taken, cashier) => WithdrawKeeps(d, from, taken, cashier, base, account, amount);
    case Decision(id, reviewer, approve) => DecideKeeps(d, id, reviewer, approve, base, account, amount);
    case Banking(bankOp) => BankingNotLarge(d.bank, bankOp, account, amount);
  }

  lemma SettledTransitive(x: seq<Request>, y: seq<Request>, z: seq<Request>)
    requires Settled(x, y) && Settled(y, z)
    ensures Settled(x, z)
  {
  }

  /** Four eyes over every run from an empty queue: every request leaves PENDING at most once and never changes
      after that, every reviewer differs from the maker, and for every account and amount the run has booked
      exactly as many teller withdrawals above the limit as it has approved. */
  lemma {:induction false} FourEyes(d: Desk, ops: seq<DeskOp>, account: nat, amount: int)
    requires FdsLinked(d.bank.fds, |d.bank.accounts|) && d.requests == []
    requires forall i :: 0 <= i < |ops| ==> DeskAllows(ops[i])
    ensures RequestsOk(DeskRun(d, ops).requests)
    ensures LargeCount(DeskRun(d, ops).bank.log, account, amount)
         == LargeCount(d.bank.log, account, amount) + ApprovedCount(DeskRun(d, ops).requests, account, amount)
    ensures ops != [] ==> Settled(DeskRun(d, ops[..|ops| - 1]).requests, DeskRun(d, ops).requests)
  {
    if ops != [] {
      FourEyes(d, ops[..|ops| - 1], account, amount);
      var before, count := DeskRun(d, ops[..|ops| - 1]), LargeCount(d.bank.log, account, amount);
      DeskStepKeeps(before, ops[|ops| - 1], count, account, amount);
    }
  }

  /** Between any two points of a run a settled request is the same. */
  lemma {:induction false} SettledForGood(d: Desk, ops: seq<DeskOp>, k: nat)
    requires FdsLinked(d.bank.fds, |d.bank.accounts|) && d.requests == [] && k <= |ops|
    requires forall i :: 0 <= i < |ops| ==> DeskAllows(ops[i])
    ensures Settled(DeskRun(d, ops[..k]).requests, DeskRun(d, ops).requests)
  {
    if k == |ops| {
      assert ops[..k] == ops;
    } else {
      var prefix := ops[..|ops| - 1];
      SettledForGood(d, prefix, k);
      assert prefix[..k] == ops[..k];
      FourEyes(d, ops, 0, 0);
      SettledTransitive(DeskRun(d, ops[..k]).requests, DeskRun(d, prefix).requests, DeskRun(d, ops).requests);
    }
  }

  // ---------- what a decision does ----------

  /** The reviewer may decide the request: it is pending and somebody else's. */
  predicate MayDecide(requests: seq<Request>, id: nat, reviewer: string) {
    id < |requests| && requests[id].status == PENDING && requests[id].requestedBy != reviewer
  }

  /** Only the status and the reviewer of one request have changed. */
  predicate OnlyReviewed(before: seq<Request>, after: seq<Request>, id: nat, reviewer: string, status: Status)
    requires id < |before|
  {
    after == before[id := before[id].(status := status, reviewedBy := Some(reviewer))]
  }

  /** Money leaves one account, and the withdrawal is logged with its new balance. */
  predicate PaidOut(before: Bank, after: Bank, account: nat, amount: int)
    requires account < |before.accounts|
  {
    var left := before.accounts[account].balance - amount;
    && after.accounts == before.accounts[account := before.accounts[account].(balance := left)]
    && after.log == before.log + [Txn(WITHDRAWAL, Some(account), None, amount, 0, "", left)]
    && after.fds == before.fds
  }

  /** The account exists and holds the amount. */
  predicate Holds(bank: Bank, account: nat, amount: int) {
    account < |bank.accounts| && amount <= bank.accounts[account].balance
  }

  /** Rejecting never touches the bank and marks the request; approving pays out exactly its amount from exactly its
      account when that holds it, and otherwise pays nothing and marks the request as failed. Whoever may not decide
      changes nothing. */
  lemma DecisionMeans(d: Desk, id: nat, reviewer: string, approve: bool)
    ensures var after := DeskDecide(d, id, reviewer, approve);
            if !MayDecide(d.requests, id, reviewer) then after == d
            else if !approve then
              after.bank == d.bank && OnlyReviewed(d.requests, after.requests, id, reviewer, REJECTED)
            else if Holds(d.bank, d.requests[id].account, d.requests[id].amount) then
              && PaidOut(d.bank, after.bank, d.requests[id].account, d.requests[id].amount)
              && OnlyReviewed(d.requests, after.requests, id, reviewer, APPROVED)
            else after.bank == d.bank && OnlyReviewed(d.requests, after.requests, id, reviewer, FAILED)
  {
  }

  /** A withdrawal up to the limit is paid when the account holds it; above it, it is queued and nothing is paid. */
  lemma WithdrawalMeans(d: Desk, account: nat, amount: int, cashier: string)
    ensures var after := DeskWithdraw(d, account, amount, cashier);
            if amount > 10000000 then
              after == d.(requests := d.requests + [Request(account, amount, cashier, PENDING, None)])
            else if 0 < amount && Holds(d.bank, account, amount) then
              PaidOut(d.bank, after.bank, account, amount) && after.requests == d.requests
            else after == d
  {
  }

  /** The decision that a status stands for. */
  predicate DecidedAs(r: Request, id: nat, ops: seq<DeskOp>) {
    match r.status
    case PENDING => r.reviewedBy.None?
    case REJECTED => r.reviewedBy.Some? && Decision(id, r.reviewedBy.value, false) in ops
    case APPROVED => r.reviewedBy.Some? && Decision(id, r.reviewedBy.value, true) in ops
    case FAILED => r.reviewedBy.Some? && Decision(id, r.reviewedBy.value, true) in ops
  }

  /** The withdrawal that a request stands for. */
  predicate AskedFor(r: Request, ops: seq<DeskOp>) {
    Withdraw(r.account, r.amount, r.requestedBy) in ops
  }

  /** Over every run from an empty queue each request was asked for in the run, and has the status that a decision of
      its reviewer in the run stands for: it is approved only if that reviewer approved it. */
  lemma {:induction false} StatusIsDecided(d: Desk, ops: seq<DeskOp>, id: nat)
    requires FdsLinked(d.bank.fds, |d.bank.accounts|) && d.requests == [] && id < |DeskRun(d, ops).requests|
    ensures AskedFor(DeskRun(d, ops).requests[id], ops) && DecidedAs(DeskRun(d, ops).requests[id], id, ops)
  {
    if ops != [] {
      var n := |ops| - 1;
      var before := DeskRun(d, ops[..n]);
      assert ops[n] in ops && forall op :: op in ops[..n] ==> op in ops;
      if id < |before.requests| { StatusIsDecided(d, ops[..n], id); }
      match ops[n]
      case Withdraw(account, amount, cashier) => WithdrawalMeans(before, account, amount, cashier);
      case Decision(i, reviewer, approve) => DecisionMeans(before, i, reviewer, approve);
      case Banking(op) =>
    }
  }

  // ---------- the handlers ----------

  class ApprovalDesk {
    var requests: seq<Request>
    const core: BankHandlers.Core

    ghost function View(): Desk
      reads this, core
    {
      Desk(core.View(), requests)
    }

    constructor (core: BankHandlers.Core)
      ensures this.core == core && requests == []
    {
      this.core, requests := core, [];
    }

    /** handleTellerWithdraw: 202 when queued, 0 when done, otherwise the refusal. */
    method TellerWithdraw(account: nat, amount: int, cashier: string) returns (code: int)
      modifies this, core
      ensures View() == DeskWithdraw(old(View()), account, amount, cashier)
      ensures amount <= 0 ==> code == 400
      ensures amount > TELLER_AUTO_LIMIT ==> code == 202
      ensures 0 < amount <= TELLER_AUTO_LIMIT ==>
          code == BankHandlers.Code(DecideWithdraw(old(core.View()), account, amount))
    {
      if amount <= 0 { return 400; }
      if amount > TELLER_AUTO_LIMIT {
        requests := requests + [Request(account, amount, cashier, PENDING, None)];
        return 202;
      }
      code := core.WithdrawCore(account, amount);
    }

    /** What a decision on a pending request answers. */
    static function Answer(bank: Bank, r: Request, approve: bool): int {
      var decision := DecideWithdraw(bank, r.account, r.amount);
      if !approve || decision.Book? then 200 else decision.code
    }

    /** approvalDecision, for approvals and rejections. */
    method ApprovalDecision(id: nat, reviewer: string, approve: bool) returns (code: int)
      modifies this, core
      ensures View() == DeskDecide(old(View()), id, reviewer, approve)
      ensures MayDecide(old(requests), id, reviewer) && code == 200 ==>
                OnlyReviewed(old(requests), requests, id, reviewer, if approve then APPROVED else REJECTED)
      ensures MayDecide(old(requests), id, reviewer) && code != 200 ==>
                approve && OnlyReviewed(old(requests), requests, id, reviewer, FAILED)
      ensures id >= |old(requests)| ==> code == 404
      ensures id < |old(requests)| && old(requests)[id].status != PENDING ==> code == 409
      ensures id < |old(requests)| && old(requests)[id].status == PENDING
              && reviewer == old(requests)[id].requestedBy ==>
                code == 403
      ensures id < |old(requests)| && old(requests)[id].status == PENDING
              && reviewer != old(requests)[id].requestedBy ==>
                code == Answer(old(core.View()), old(requests)[id], approve)
    {
      if id >= |requests| { return 404; }
      var r := requests[id];
      if r.status != PENDING { return 409; }
      if reviewer == r.requestedBy { return 403; }
      if !approve {
        requests := requests[id := r.(status := REJECTED, reviewedBy := Some(reviewer))];
        return 200;
      }
      code := core.WithdrawCore(r.account, r.amount);
      if code != 0 {
        requests := requests[id := r.(status := FAILED, reviewedBy := Some(reviewer))];
        return code;
      }
      requests := requests[id := r.(status := APPROVED, reviewedBy := Some(reviewer))];
      code := 200;
    }
  }
}
