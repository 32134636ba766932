/** What the operations of the core bank mean to its customers: how every request is answered, what it does to balances
    and deposits, and whose request it takes to move whose money. Everything here is stated on requests, balances and
    deposits; the handlers' decisions appear only as what is proved to agree with it. */
module BankMeaning {
  import BankHandlers
  import opened Ledger
  import opened LedgerProofs
  import opened Options

  // ---------- amounts ----------

  /** n is x to the nearest whole paisa, halves going up. */
  predicate Nearest(n: int, x: real) {
    n as real - 0.5 <= x < n as real + 0.5
  }

  lemma RoundsToNearest(x: real)
    requires x >= 0.0
    ensures Nearest(MathRound(x), x)
  {
  }

  /** Transfers are free up to NPR 10,000 and cost a tenth of a percent above. */
  lemma FeeIsTenthOfPercent(amount: int)
    ensures amount <= 1000000 ==> TransferFee(amount) == 0
    ensures amount > 1000000 ==> Nearest(TransferFee(amount), amount as real * 0.001)
  {
    if amount > 1000000 {
      assert amount as real / 1000.0 == amount as real * 0.001;
      RoundsToNearest(amount as real / 1000.0);
    }
  }

  /** Breaking a deposit costs one percent of it, and the rest is paid back to the paisa. */
  lemma BreakCostsOnePercent(principal: int)
    requires principal >= 0
    ensures Nearest(BreakPenalty(principal), principal as real * 0.01)
    ensures BreakRefund(principal) + BreakPenalty(principal) == principal
  {
    RoundsToNearest(principal as real * 0.01);
    MathRoundWhole(principal - BreakPenalty(principal));
  }

  /** A deposit pays simple interest for its months. */
  lemma MaturityIsSimpleInterest(principal: int, rate: real, tenure: nat)
    requires principal >= 0 && rate >= 0.0
    ensures Nearest(MaturityAmount(principal, rate, tenure),
                    principal as real + principal as real * (rate / 100.0) * (tenure as real / 12.0))
  {
    var p, x, y := principal as real, rate / 100.0, tenure as real / 12.0;
    assert p * x >= 0.0;
    assert (p * x) * y >= 0.0;
    RoundsToNearest(p + p * x * y);
  }

  /** Six tenures are offered; a longer one pays more, half a percent from one to the next, and a whole one from half
      a year to a year. */
  lemma LongerTenurePaysMore(tenure: int, longer: int)
    ensures FdRate(tenure).Some? <==> tenure in {3, 6, 12, 24, 36, 60}
    ensures FdRate(3) == Some(6.5) && FdRate(6) == Some(6.5 + 0.5) && FdRate(12) == Some(6.5 + 1.5)
    ensures FdRate(24) == Some(6.5 + 2.0) && FdRate(36) == Some(6.5 + 2.5) && FdRate(60) == Some(6.5 + 3.0)
    ensures FdRate(tenure).Some? && FdRate(longer).Some? && tenure < longer ==>
              6.5 <= FdRate(tenure).value < FdRate(longer).value <= 9.5
  {
  }

  // ---------- how requests are answered ----------

  /** Requests that are refused whatever the tables hold. */
  predicate Malformed(op: Op) {
    match op
    case Transfer(_, from, to, amount) => amount <= 0 || from == to
    case Bill(_, _, biller, identifier, amount) => biller !in BILLERS || amount <= 0 || Blank(identifier)
    case FdCreate(_, _, amount, tenure, _) => amount < 100000 || tenure !in {3, 6, 12, 24, 36, 60}
    case Cheque(_, _, amount, _, _) => amount <= 0
    case TellerDeposit(_, amount) => amount <= 0
    case TellerWithdraw(_, amount) => amount <= 0
    case CardSpend(_, amount, _) => amount <= 0
    case FdBreak(_, _) => false
    case Eod(_, _, _, _) => false
  }

  /** The account that a request takes money from. */
  function Payer(op: Op): Option<nat> {
    match op
    case Transfer(_, from, _, _) => Some(from)
    case Bill(_, from, _, _, _) => Some(from)
    case TellerWithdraw(from, _) => Some(from)
    case CardSpend(from, _, _) => Some(from)
    case FdCreate(_, from, _, _, _) => Some(from)
    case _ => None
  }

  /** The account that a request pays money into. */
  function Payee(b: Bank, op: Op): Option<nat> {
    match op
    case Transfer(_, _, to, _) => Some(to)
    case Cheque(_, to, _, _, _) => Some(to)
    case TellerDeposit(to, _) => Some(to)
    case FdBreak(_, fd) => if fd < |b.fds| then Some(b.fds[fd].account) else None
    case _ => None
  }

  /** The account that a request is checked against. */
  function Checked(b: Bank, op: Op): Option<nat> {
    if Payer(op).Some? then Payer(op) else Payee(b, op)
  }

  /** Who may ask for it: customers for their own accounts, the owner alone for a deposit to be opened, and everybody at
      the counter and with the card. */
  predicate Entitled(op: Op, owner: string) {
    match op
    case Transfer(caller, _, _, _) => caller.isCustomer ==> caller.cid == owner
    case Cheque(caller, _, _, _, _) => caller.isCustomer ==> caller.cid == owner
    case Bill(caller, _, _, _, _) => caller.isCustomer ==> caller.cid == owner
    case FdCreate(cid, _, _, _, _) => cid == owner
    case _ => true
  }

  /** What a request costs the payer. */
  function Cost(op: Op): int {
    match op
    case Transfer(_, _, _, amount) => amount + TransferFee(amount)
    case Bill(_, _, _, _, amount) => amount
    case TellerWithdraw(_, amount) => amount
    case CardSpend(_, amount, _) => amount
    case FdCreate(_, _, amount, _, _) => amount
    case _ => 0
  }

  /** Nobody may overdraw; transfers and bills must leave the minimum balance as well. */
  predicate Affordable(account: Account, op: Op) {
    && Cost(op) <= account.balance
    && (op.Transfer? || op.Bill? ==> Cost(op) + account.minBalance <= account.balance)
  }

  predicate Repeated(b: Bank, op: Op) {
    op.Cheque? && op.number != "" && ChequeSeen(b.log, op.number)
  }

  /** Breaking a deposit: only its owner finds it, and only once. */
  function BreakAnswer(b: Bank, cid: string, fd: nat): int {
    if fd < |b.fds| && b.fds[fd].account < |b.accounts| && b.fds[fd].owner == cid then
      if b.fds[fd].status == ACTIVE then 0 else 400
    else 404
  }

  /** One order of refusals for all other requests: the request itself, the account, who asks, the receiving account, a
      repeated cheque, and the funds. Zero stands for success. */
  function Answer(b: Bank, op: Op): int
    requires !op.Eod?
  {
    if op.FdBreak? then BreakAnswer(b, op.cid, op.fd)
    else if Malformed(op) then 400
    else
      var a := Checked(b, op).value;
      if a >= |b.accounts| then 404
      else if !Entitled(op, b.accounts[a].owner) then 403
      else if op.Transfer? && op.to >= |b.accounts| then 404
      else if Repeated(b, op) then 409
      else if Payer(op).Some? && !Affordable(b.accounts[a], op) then if op.CardSpend? then 402 else 400
      else 0
  }

  /** Every handler answers so. */
  lemma AnswersAgree(b: Bank, op: Op)
    requires !op.Eod?
    ensures BankHandlers.Code(Decide(b, op)) == Answer(b, op)
    ensures Decide(b, op).Book? <==> Answer(b, op) == 0
  {
    if op.FdCreate? { LongerTenurePaysMore(op.tenure, op.tenure); }
  }

  /** A transfer that passes all other guards is answered with 403 exactly when a customer asks for it on an account
      that belongs to somebody else. */
  lemma ForeignTransferIff(b: Bank, caller: Caller, from: nat, to: nat, amount: int)
    requires 0 < amount && from != to && from < |b.accounts| && to < |b.accounts|
    requires amount + TransferFee(amount) + b.accounts[from].minBalance <= b.accounts[from].balance
    requires amount + TransferFee(amount) <= b.accounts[from].balance
    ensures BankHandlers.Code(DecideTransfer(b, caller, from, to, amount)) == 403
       <==> caller.isCustomer && b.accounts[from].owner != caller.cid
    ensures !(caller.isCustomer && b.accounts[from].owner != caller.cid) ==>
              DecideTransfer(b, caller, from, to, amount).Book?
  {
    AnswersAgree(b, Op.Transfer(caller, from, to, amount));
  }

  // ---------- what they do to balances ----------

  /** What a request brings the payee: the amount, without any fee; for a broken deposit the principal less the
      penalty. */
  function Brings(b: Bank, op: Op): int {
    match op
    case Transfer(_, _, _, amount) => amount
    case Cheque(_, _, amount, _, _) => amount
    case TellerDeposit(_, amount) => amount
    case FdBreak(_, fd) => if fd < |b.fds| then b.fds[fd].principal - BreakPenalty(b.fds[fd].principal) else 0
    case _ => 0
  }

  /** How an accepted request changes the balance of an account. */
  function Change(b: Bank, op: Op, a: nat): int {
    (if Payee(b, op) == Some(a) then Brings(b, op) else 0) - (if Payer(op) == Some(a) then Cost(op) else 0)
  }

  /** The type under which a request is logged; opening and breaking a deposit share one. */
  function KindOf(op: Op): Kind
    requires !op.Eod?
  {
    match op
    case Transfer(_, _, _, _) => TRANSFER
    case Cheque(_, _, _, _, _) => CHEQUE_DEPOSIT
    case Bill(_, _, _, _, _) => BILL_PAYMENT
    case TellerDeposit(_, _) => DEPOSIT
    case TellerWithdraw(_, _) => WITHDRAWAL
    case CardSpend(_, _, atm) => if atm then CARD_ATM else CARD_POS
    case FdCreate(_, _, _, _, _) => FD_OPEN
    case FdBreak(_, _) => FD_OPEN
  }

  /** The row that an accepted request is logged with, before it is stamped with the new balance of the account that it
      was checked against. */
  function RowFor(b: Bank, op: Op): Txn
    requires !op.Eod?
  {
    var moved := if Payee(b, op).Some? then Brings(b, op) else Cost(op);
    var fee := if op.Transfer? then Cost(op) - op.amount
               else if op.FdBreak? && op.fd < |b.fds| then BreakPenalty(b.fds[op.fd].principal)
               else 0;
    var text := if op.Cheque? then ChequeText(op.number, op.drawerBank) else "";
    Txn(KindOf(op), Payer(op), Payee(b, op), moved, fee, text, 0)
  }

  lemma DecidesRow(b: Bank, op: Op)
    requires FdsPositive(b.fds) && !op.Eod? && Answer(b, op) == 0
    ensures Decide(b, op).Book? && Decide(b, op).txn == RowFor(b, op)
  {
    AnswersAgree(b, op);
    if op.FdBreak? { BreakCostsOnePercent(b.fds[op.fd].principal); }
  }

  /** An accepted request appends its row, and a refused one changes nothing at all. */
  lemma StepRow(b: Bank, op: Op)
    requires FdsLinked(b.fds, |b.accounts|) && FdsPositive(b.fds) && !op.Eod?
    ensures Answer(b, op) != 0 ==> Step(b, op) == b
    ensures Answer(b, op) == 0 ==>
              var a := Checked(b, op).value;
              a < |b.accounts|
              && Step(b, op).log == b.log + [RowFor(b, op).(balanceAfter := Step(b, op).accounts[a].balance)]
  {
    AnswersAgree(b, op);
    if Answer(b, op) == 0 { DecidesRow(b, op); }
  }

  /** A request does this to every balance if it is accepted, and nothing to any if it is refused; nothing else about
      any account changes. */
  lemma StepBalance(b: Bank, op: Op, a: nat)
    requires FdsLinked(b.fds, |b.accounts|) && FdsPositive(b.fds) && !op.Eod? && a < |b.accounts|
    ensures Step(b, op).accounts[a]
         == b.accounts[a].(balance := b.accounts[a].balance + if Answer(b, op) == 0 then Change(b, op, a) else 0)
  {
    AnswersAgree(b, op);
    if Answer(b, op) == 0 {
      DecidesRow(b, op);
      MoveIsEffect(b.accounts, Decide(b, op).txn, a);
      OnlyBalances(b.accounts, Decide(b, op).txn, a);
    }
  }

  lemma OnlyBalances(accounts: seq<Account>, t: Txn, a: nat)
    requires RowsExist(accounts, t) && a < |accounts|
    ensures Move(accounts, t)[a] == accounts[a].(balance := Move(accounts, t)[a].balance)
  {
  }

  // ---------- end of day ----------

  /** A day's interest: for active savings accounts of the branch that are not dormant, if it is a paisa or more. */
  function InterestDue(account: Account, branch: string): int {
    var interest := account.balance as real * (account.rate / 100.0) / 365.0;
    if account.branch == branch && account.active && account.savings && !account.dormant && interest >= 1.0 then
      MathRound(interest)
    else 0
  }

  lemma InterestIsNearest(account: Account, branch: string)
    requires InterestDue(account, branch) != 0
    ensures Nearest(InterestDue(account, branch), account.balance as real * (account.rate / 100.0) / 365.0)
  {
    RoundsToNearest(account.balance as real * (account.rate / 100.0) / 365.0);
  }

  lemma {:induction false} InterestPass(b: Bank, i: nat, branch: string, a: nat)
    requires i <= |b.accounts| && a < |b.accounts|
    ensures InterestFrom(b, i, branch).accounts[a]
         == b.accounts[a].(balance := b.accounts[a].balance + if a >= i then InterestDue(b.accounts[a], branch) else 0)
    decreases |b.accounts| - i
  {
    if i < |b.accounts| { InterestPass(Apply(b, DecideInterest(b, i, branch)), i + 1, branch, a); }
  }

  /** An active deposit of the branch that has reached its day. */
  predicate Ripe(fd: FixedDeposit, branch: string, today: int) {
    fd.branch == branch && fd.status == ACTIVE && fd.maturityDay <= today
  }

  /** What ripe deposits from position i on pay into an account, together and by the last of them alone. */
  function RipeSum(fds: seq<FixedDeposit>, i: nat, a: nat, branch: string, today: int): int
    requires i <= |fds|
    decreases |fds| - i
  {
    if i == |fds| then 0
    else (if Ripe(fds[i], branch, today) && fds[i].account == a then fds[i].maturityAmount else 0)
         + RipeSum(fds, i + 1, a, branch, today)
  }

  function LastRipe(fds: seq<FixedDeposit>, i: nat, a: nat, branch: string, today: int): Option<int>
    requires i <= |fds|
    decreases |fds| - i
  {
    if i == |fds| then None
    else
      var later := LastRipe(fds, i + 1, a, branch, today);
      if later.Some? then later
      else if Ripe(fds[i], branch, today) && fds[i].account == a then Some(fds[i].maturityAmount)
      else None
  }

  /** An account in the maturity pass: credited with every ripe deposit if the pass reads current balances; otherwise
      set to its balance before the pass plus the last ripe deposit. */
  lemma {:induction false} MaturityPass(b: Bank, before: seq<Account>, i: nat, branch: string, today: int,
                                        reading: Reading, a: nat, fds: seq<FixedDeposit>)
    requires i <= |b.fds| == |fds| && |before| == |b.accounts| && FdsLinked(b.fds, |b.accounts|) && a < |b.accounts|
    requires forall j :: i <= j < |fds| ==> b.fds[j] == fds[j]
    ensures var after := MatureFrom(b, before, i, branch, today, reading).accounts[a];
            var last := LastRipe(fds, i, a, branch, today);
            after == b.accounts[a].(balance :=
              if reading.Current? then b.accounts[a].balance + RipeSum(fds, i, a, branch, today)
              else if last.Some? then before[a].balance + last.value else b.accounts[a].balance)
    decreases |b.fds| - i
  {
    if i < |b.fds| {
      var c := MatureIfDue(b, before, i, branch, today, reading);
      assert Due(b.fds[i], branch, today) <==> Ripe(fds[i], branch, today);
      MaturityPass(c, before, i + 1, branch, today, reading, a, fds);
    }
  }

  lemma {:induction false} MaturityStatus(b: Bank, before: seq<Account>, i: nat, branch: string, today: int,
                                          reading: Reading, k: nat)
    requires i <= |b.fds| && |before| == |b.accounts| && FdsLinked(b.fds, |b.accounts|) && k < |b.fds|
    ensures MatureFrom(b, before, i, branch, today, reading).fds[k]
         == if k >= i && Ripe(b.fds[k], branch, today) then b.fds[k].(status := MATURED) else b.fds[k]
    decreases |b.fds| - i
  {
    if i < |b.fds| {
      var c := MatureIfDue(b, before, i, branch, today, reading);
      assert Due(b.fds[i], branch, today) <==> Ripe(b.fds[i], branch, today);
      MaturityStatus(c, before, i + 1, branch, today, reading, k);
    }
  }

  /** An account after an end-of-day run: interest, then maturities, and dormant if it belongs to the branch, is active
      and has had no recent transaction. */
  lemma EodBalance(b: Bank, branch: string, today: int, recent: set<nat>, reading: Reading, a: nat)
    requires FdsLinked(b.fds, |b.accounts|) && a < |b.accounts|
    ensures var x, last := b.accounts[a], LastRipe(b.fds, 0, a, branch, today);
            var matured := if reading.Current? then RipeSum(b.fds, 0, a, branch, today)
                           else if last.Some? then last.value else 0;
            RunEod(b, branch, today, recent, reading).accounts[a]
              == x.(balance := x.balance + InterestDue(x, branch) + matured,
                    dormant := x.dormant || (x.branch == branch && x.active && a !in recent))
  {
    var c := BeforeMaturity(b, branch, recent);
    InterestPass(b, 0, branch, a);
    MaturityPass(c, c.accounts, 0, branch, today, reading, a, b.fds);
  }

  /** And every deposit: matured exactly if it was ripe. */
  lemma EodDeposit(b: Bank, branch: string, today: int, recent: set<nat>, reading: Reading, k: nat)
    requires FdsLinked(b.fds, |b.accounts|) && k < |b.fds|
    ensures RunEod(b, branch, today, recent, reading).fds[k]
         == if Ripe(b.fds[k], branch, today) then b.fds[k].(status := MATURED) else b.fds[k]
  {
    var c := BeforeMaturity(b, branch, recent);
    MaturityStatus(c, c.accounts, 0, branch, today, reading, k);
  }

  // ---------- whose request it takes ----------

  /** The request may take money from this account: it names it as the payer and comes from somebody entitled. */
  predicate MaySpend(op: Op, a: nat, owner: string) {
    Payer(op) == Some(a) && Entitled(op, owner)
  }

  /** What the requests that may take money from the account ask for. */
  function Spendable(ops: seq<Op>, a: nat, owner: string): nat {
    if ops == [] then 0
    else
      var op := ops[|ops| - 1];
      Spendable(ops[..|ops| - 1], a, owner) + if MaySpend(op, a, owner) && Cost(op) > 0 then Cost(op) else 0
  }

  lemma {:induction false} RipeIsPositive(fds: seq<FixedDeposit>, i: nat, a: nat, branch: string, today: int)
    requires FdsPositive(fds) && i <= |fds|
    ensures RipeSum(fds, i, a, branch, today) >= 0
    ensures LastRipe(fds, i, a, branch, today).Some? ==> LastRipe(fds, i, a, branch, today).value > 0
    decreases |fds| - i
  {
    if i < |fds| { RipeIsPositive(fds, i + 1, a, branch, today); }
  }

  /** One step takes from an account at most what an entitled request names; every other step leaves it at least what it
      had, with the same owner. */
  lemma StepSpends(b: Bank, op: Op, a: nat)
    requires FdsLinked(b.fds, |b.accounts|) && FdsPositive(b.fds) && a < |b.accounts|
    ensures var x, y := b.accounts[a], Step(b, op).accounts[a];
            y.owner == x.owner && y.balance >= x.balance - Spendable([op], a, x.owner)
  {
    assert [op][..0] == [];
    if op.Eod? {
      EodBalance(b, op.branch, op.today, op.recent, op.reading, a);
      RipeIsPositive(b.fds, 0, a, op.branch, op.today);
      if InterestDue(b.accounts[a], op.branch) != 0 { InterestIsNearest(b.accounts[a], op.branch); }
    } else {
      StepBalance(b, op, a);
      if op.FdBreak? && Answer(b, op) == 0 {
        BreakCostsOnePercent(b.fds[op.fd].principal);
        BreakLeavesSome(b.fds[op.fd].principal);
      }
    }
  }

  lemma BreakLeavesSome(principal: int)
    requires principal > 0
    ensures principal - BreakPenalty(principal) >= 0
  {
    BreakCostsOnePercent(principal);
    assert principal as real * 0.01 + 0.5 <= principal as real;
  }

  /** Over every run an account loses at most what requests entitled to it have asked for. */
  lemma {:induction false} OnlyTheEntitledSpend(b: Bank, ops: seq<Op>, a: nat)
    requires FdsLinked(b.fds, |b.accounts|) && FdsPositive(b.fds) && a < |b.accounts|
    ensures var x, y := b.accounts[a], Run(b, ops).accounts[a];
            y.owner == x.owner && y.balance >= x.balance - Spendable(ops, a, x.owner)
  {
    if ops != [] {
      var n := |ops| - 1;
      OnlyTheEntitledSpend(b, ops[..n], a);
      RunKeepsPositive(b, ops[..n]);
      StepSpends(Run(b, ops[..n]), ops[n], a);
      assert [ops[n]][..0] == [];
    }
  }

  /** So without such a request, whatever customers ask for on accounts that are not theirs, no balance goes down. */
  lemma {:induction false} NobodyElseSpends(b: Bank, ops: seq<Op>, a: nat)
    requires FdsLinked(b.fds, |b.accounts|) && FdsPositive(b.fds) && a < |b.accounts|
    requires forall i :: 0 <= i < |ops| ==> !MaySpend(ops[i], a, b.accounts[a].owner)
    ensures Run(b, ops).accounts[a].balance >= b.accounts[a].balance
  {
    OnlyTheEntitledSpend(b, ops, a);
    NothingSpendable(ops, a, b.accounts[a].owner);
  }

  lemma {:induction false} NothingSpendable(ops: seq<Op>, a: nat, owner: string)
    requires forall i :: 0 <= i < |ops| ==> !MaySpend(ops[i], a, owner)
    ensures Spendable(ops, a, owner) == 0
  {
    if ops != [] { NothingSpendable(ops[..|ops| - 1], a, owner); }
  }

  // ---------- the life of a deposit ----------

  /** A deposit that this request opens. */
  function Opened(account: Account, op: Op): FixedDeposit
    requires op.FdCreate? && FdRate(op.tenure).Some?
  {
    FixedDeposit(op.cid, op.from, account.branch, op.amount,
                 MaturityAmount(op.amount, FdRate(op.tenure).value, op.tenure), op.today + 30 * op.tenure, ACTIVE)
  }

  /** What a step does to the deposits: an accepted opening adds one, an accepted break by its owner marks it, an
      end-of-day run of its branch matures it on or after its day, and nothing else happens to any. */
  lemma StepDeposits(b: Bank, op: Op, k: nat)
    requires FdsLinked(b.fds, |b.accounts|)
    ensures var after := Step(b, op).fds;
            && (if op.FdCreate? && Answer(b, op) == 0 then
                  FdRate(op.tenure).Some? && |after| == |b.fds| + 1 && after[|b.fds|] == Opened(b.accounts[op.from], op)
                else |after| == |b.fds|)
            && (k < |b.fds| ==>
                  after[k] == if op.FdBreak? && op.fd == k && Answer(b, op) == 0 then b.fds[k].(status := BROKEN)
                              else if op.Eod? && Ripe(b.fds[k], op.branch, op.today) then b.fds[k].(status := MATURED)
                              else b.fds[k])
  {
    if op.Eod? {
      if k < |b.fds| { EodDeposit(b, op.branch, op.today, op.recent, op.reading, k); }
    } else {
      AnswersAgree(b, op);
      if op.FdCreate? { LongerTenurePaysMore(op.tenure, op.tenure); }
    }
  }

  /** Over every run a deposit keeps its owner, account and amounts; it is broken only at its owner's request, matured
      only by an end-of-day run of its branch on or after its day, and settled once. */
  lemma {:induction false} DepositLife(b: Bank, ops: seq<Op>, k: nat)
    requires FdsLinked(b.fds, |b.accounts|) && k < |b.fds|
    ensures k < |Run(b, ops).fds|
    ensures var d, e := b.fds[k], Run(b, ops).fds[k];
            && e == d.(status := e.status)
            && (d.status != ACTIVE ==> e == d)
            && (d.status == ACTIVE && e.status == BROKEN ==> FdBreak(d.owner, k) in ops)
            && (d.status == ACTIVE && e.status == MATURED ==>
                  exists op :: op in ops && op.Eod? && op.branch == d.branch && op.today >= d.maturityDay)
  {
    if ops != [] {
      var n := |ops| - 1;
      DepositLife(b, ops[..n], k);
      StepDeposits(Run(b, ops[..n]), ops[n], k);
      assert ops[n] in ops && forall op :: op in ops[..n] ==> op in ops;
    }
  }
}
