/** Core banking as a state machine over the accounts, fixed-deposit and transactions tables (`go_bff/banking.go`,
    `cashier.go`, `cardcontrols.go`). Amounts are whole paisa, one handler is one step, and rows are identified by
    their position in their table. This file holds the steps as functions; `BankHandlers.dfy` holds the handlers. */
module Ledger {
  import opened Options

  datatype Account = Account(owner: string, branch: string, balance: int, minBalance: int,
                             active: bool, savings: bool, dormant: bool, rate: real)

  datatype FdStatus = ACTIVE | BROKEN | MATURED

  datatype FixedDeposit = FixedDeposit(owner: string, account: nat, branch: string, principal: int,
                                       maturityAmount: int, maturityDay: int, status: FdStatus)

  datatype Kind =
    | DEPOSIT | CHEQUE_DEPOSIT | WITHDRAWAL | CARD_POS | CARD_ATM | TRANSFER | STANDING_INSTRUCTION
    | BILL_PAYMENT | IPO_BLOCK | IPO_REFUND | FOREX_UNLOAD | FOREX_LOAD | FD_OPEN | FD_MATURITY | INTEREST
    | LOAN_DISBURSE | LOAN_EMI | LOAN_PREPAY | LOAN_FORECLOSE | OTHER

  /** A row of the transactions table. */
  datatype Txn = Txn(kind: Kind, from: Option<nat>, to: Option<nat>, amount: int, fee: int,
                     description: string, balanceAfter: int)

  datatype Bank = Bank(accounts: seq<Account>, fds: seq<FixedDeposit>, log: seq<Txn>)

  datatype Caller = Caller(cid: string, isCustomer: bool)

  /** math_round on an amount given in paisa: add a half and cut off towards zero. */
  function MathRound(x: real): int {
    var y := x + 0.5;
    if y >= 0.0 then y.Floor else -((-y).Floor)
  }

  lemma MathRoundWhole(p: int)
    ensures MathRound(p as real) == if p >= 0 then p else p + 1
  {
    if p >= 0 { assert (p as real + 0.5).Floor == p; } else { assert (-(p as real + 0.5)).Floor == -p - 1; }
  }

  // ---------- booking ----------

  predicate Owns(account: Account, caller: Caller) {
    caller.isCustomer ==> account.owner == caller.cid
  }

  function Credit(accounts: seq<Account>, a: nat, amount: int): (after: seq<Account>)
    requires a < |accounts|
    ensures |after| == |accounts|
  {
    accounts[a := accounts[a].(balance := accounts[a].balance + amount)]
  }

  predicate RowsExist(accounts: seq<Account>, t: Txn) {
    && (t.from.Some? ==> t.from.value < |accounts|)
    && (t.to.Some? ==> t.to.value < |accounts|)
    && (t.from.Some? || t.to.Some?)
    && t.from != t.to
  }

  /** The debit side pays amount and fee, the credit side receives the amount. */
  function Move(accounts: seq<Account>, t: Txn): (after: seq<Account>)
    requires RowsExist(accounts, t)
    ensures |after| == |accounts|
  {
    var debited := if t.from.Some? then Credit(accounts, t.from.value, -(t.amount + t.fee)) else accounts;
    if t.to.Some? then Credit(debited, t.to.value, t.amount) else debited
  }

  /** The account whose new balance a row carries. */
  function Subject(t: Txn): nat
    requires t.from.Some? || t.to.Some?
  {
    if t.from.Some? then t.from.value else t.to.value
  }

  /** A handler either refuses with an HTTP status and changes nothing, or books one transaction. */
  datatype Decision = Refuse(code: int) | Book(txn: Txn, fds: seq<FixedDeposit>)

  function Stamped(accounts: seq<Account>, t: Txn): Txn
    requires RowsExist(accounts, t)
  {
    t.(balanceAfter := Move(accounts, t)[Subject(t)].balance)
  }

  function Apply(b: Bank, d: Decision): Bank
    requires d.Book? ==> RowsExist(b.accounts, d.txn)
  {
    if d.Refuse? then b
    else Bank(Move(b.accounts, d.txn), d.fds, b.log + [Stamped(b.accounts, d.txn)])
  }

  function Debit(kind: Kind, from: nat, amount: int): Txn {
    Txn(kind, Some(from), None, amount, 0, "", 0)
  }

  function Receive(kind: Kind, to: nat, amount: int): Txn {
    Txn(kind, None, Some(to), amount, 0, "", 0)
  }

  // ---------- the handlers' decisions ----------

  function TransferFee(amount: int): int {
    if amount > 1000000 then MathRound(amount as real / 1000.0) else 0
  }

  function DecideTransfer(b: Bank, caller: Caller, from: nat, to: nat, amount: int): Decision {
    if amount <= 0 || from == to then Refuse(400)
    else if from >= |b.accounts| then Refuse(404)
    else if !Owns(b.accounts[from], caller) then Refuse(403)
    else if to >= |b.accounts| then Refuse(404)
    else
      var source, total := b.accounts[from], amount + TransferFee(amount);
      if source.balance < total || source.balance - total < source.minBalance then Refuse(400)
      else Book(Txn(TRANSFER, Some(from), Some(to), amount, TransferFee(amount), "", 0), b.fds)
  }

  /** ASCII case folding. */
  function Fold(c: char): char {
    if 'A' <= c <= 'Z' then (c as int + 32) as char else c
  }

  /** SQL's LIKE: a percent sign stands for any text, an underscore for any character, and ASCII case is ignored. */
  predicate Like(pattern: string, text: string)
    decreases |pattern| + |text|
  {
    if pattern == "" then text == ""
    else if pattern[0] == '%' then Like(pattern[1..], text) || (text != "" && Like(pattern, text[1..]))
    else text != "" && (pattern[0] == '_' || Fold(pattern[0]) == Fold(text[0])) && Like(pattern[1..], text[1..])
  }

  function ChequePattern(number: string): string {
    "%" + ("cheque " + (number + "%"))
  }

  function ChequeText(number: string, drawerBank: string): string {
    "Cheque deposit (" + ("cheque " + number) + (if drawerBank == "" then "" else ", " + drawerBank) + ")"
  }

  predicate ChequeSeen(log: seq<Txn>, number: string) {
    exists i :: 0 <= i < |log| && log[i].kind == CHEQUE_DEPOSIT && Like(ChequePattern(number), log[i].description)
  }

  function DecideCheque(b: Bank, caller: Caller, to: nat, amount: int, number: string, drawerBank: string): Decision {
    if amount <= 0 then Refuse(400)
    else if to >= |b.accounts| then Refuse(404)
    else if !Owns(b.accounts[to], caller) then Refuse(403)
    else if number != "" && ChequeSeen(b.log, number) then Refuse(409)
    else Book(Receive(CHEQUE_DEPOSIT, to, amount).(description := ChequeText(number, drawerBank)), b.fds)
  }

  const BILLERS: set<string> := {"nea_electricity", "khanepani_water", "ntc_topup", "ncell_topup",
                                 "worldlink_net", "vianet_net", "dishhome_tv", "khanepani_sewer"}

  /** The white space that Go trims: that of ASCII and Latin-1, and the other characters of the Unicode property. */
  predicate IsSpace(c: char) {
    var n := c as int;
    || 9 <= n <= 13 || n == 0x20 || n == 0x85 || n == 0xA0 || n == 0x1680 || 0x2000 <= n <= 0x200A
    || n == 0x2028 || n == 0x2029 || n == 0x202F || n == 0x205F || n == 0x3000
  }

  predicate Blank(s: string) {
    forall i :: 0 <= i < |s| ==> IsSpace(s[i])
  }

  function DecideBill(b: Bank, caller: Caller, from: nat, biller: string, identifier: string, amount: int): Decision {
    if biller !in BILLERS || amount <= 0 || Blank(identifier) then Refuse(400)
    else if from >= |b.accounts| then Refuse(404)
    else if !Owns(b.accounts[from], caller) then Refuse(403)
    else if b.accounts[from].balance < amount then Refuse(400)
    else if b.accounts[from].balance - amount < b.accounts[from].minBalance then Refuse(400)
    else Book(Debit(BILL_PAYMENT, from, amount), b.fds)
  }

  function DecideTellerDeposit(b: Bank, to: nat, amount: int): Decision {
    if amount <= 0 then Refuse(400)
    else if to >= |b.accounts| then Refuse(404)
    else Book(Receive(DEPOSIT, to, amount), b.fds)
  }

  /** withdrawCore, for a positive amount. */
  function DecideWithdraw(b: Bank, from: nat, amount: int): Decision {
    if from >= |b.accounts| then Refuse(404)
    else if b.accounts[from].balance < amount then Refuse(400)
    else Book(Debit(WITHDRAWAL, from, amount), b.fds)
  }

  /** cardDebit, for a positive amount. */
  function DecideCard(b: Bank, from: nat, amount: int, atm: bool): Decision {
    if from >= |b.accounts| then Refuse(404)
    else if b.accounts[from].balance < amount then Refuse(402)
    else Book(Debit(if atm then CARD_ATM else CARD_POS, from, amount), b.fds)
  }

  /** Percent per year by tenure in months. */
  function FdRate(tenure: int): Option<real> {
    if tenure == 3 then Some(6.5) else if tenure == 6 then Some(7.0) else if tenure == 12 then Some(8.0)
    else if tenure == 24 then Some(8.5) else if tenure == 36 then Some(9.0) else if tenure == 60 then Some(9.5)
    else None
  }

  function MaturityAmount(principal: int, rate: real, tenure: int): int {
    MathRound(principal as real + principal as real * (rate / 100.0) * (tenure as real / 12.0))
  }

  function DecideFdCreate(b: Bank, cid: string, from: nat, principal: int, tenure: int, today: int): Decision {
    if principal < 100000 || FdRate(tenure).None? then Refuse(400)
    else if from >= |b.accounts| then Refuse(404)
    else if b.accounts[from].owner != cid then Refuse(403)
    else if b.accounts[from].balance < principal then Refuse(400)
    else Book(Debit(FD_OPEN, from, principal),
              b.fds + [FixedDeposit(cid, from, b.accounts[from].branch, principal,
                                    MaturityAmount(principal, FdRate(tenure).value, tenure),
                                    today + tenure * 30, ACTIVE)])
  }

  function BreakPenalty(principal: int): int {
    MathRound(principal as real * 0.01)
  }

  function BreakRefund(principal: int): int {
    MathRound((principal - BreakPenalty(principal)) as real)
  }

  /** Breaking a deposit early is logged under the opening type, in the credit direction. */
  function DecideFdBreak(b: Bank, cid: string, fd: nat): Decision {
    if fd >= |b.fds| || b.fds[fd].owner != cid || b.fds[fd].account >= |b.accounts| then Refuse(404)
    else if b.fds[fd].status != ACTIVE then Refuse(400)
    else
      var d := b.fds[fd];
      Book(Receive(FD_OPEN, d.account, BreakRefund(d.principal)).(fee := BreakPenalty(d.principal)),
           b.fds[fd := d.(status := BROKEN)])
  }

  // ---------- end of day ----------

  predicate EarnsInterest(a: Account, branch: string) {
    a.branch == branch && a.active && a.savings && !a.dormant
  }

  function DailyInterest(a: Account): real {
    a.balance as real * (a.rate / 100.0) / 365.0
  }

  function DecideInterest(b: Bank, a: nat, branch: string): Decision
    requires a < |b.accounts|
  {
    if !EarnsInterest(b.accounts[a], branch) || DailyInterest(b.accounts[a]) < 1.0 then Refuse(0)
    else Book(Receive(INTEREST, a, MathRound(DailyInterest(b.accounts[a]))), b.fds)
  }

  /** Interest for the accounts from position a on, in table order. */
  function InterestFrom(b: Bank, a: nat, branch: string): (after: Bank)
    requires a <= |b.accounts|
    ensures |after.accounts| == |b.accounts| && after.fds == b.fds
    decreases |b.accounts| - a
  {
    if a == |b.accounts| then b else InterestFrom(Apply(b, DecideInterest(b, a, branch)), a + 1, branch)
  }

  /** Accounts of the branch without a recent transaction become dormant. */
  function MarkDormant(accounts: seq<Account>, branch: string, recent: set<nat>): (after: seq<Account>)
    ensures |after| == |accounts|
    ensures forall a :: 0 <= a < |accounts| ==> after[a].balance == accounts[a].balance
  {
    seq(|accounts|, a requires 0 <= a < |accounts| =>
      if accounts[a].branch == branch && accounts[a].active && a !in recent then accounts[a].(dormant := true)
      else accounts[a])
  }

  predicate Due(fd: FixedDeposit, branch: string, today: int) {
    fd.branch == branch && fd.status == ACTIVE && fd.maturityDay <= today
  }

  /** What the balance query of the maturity pass sees, which goes around the pass's open transaction: the balances
      from before the pass, as on a second connection that reads committed data, or the current ones. */
  datatype Reading = BeforePass | Current

  function Seen(b: Bank, before: seq<Account>, reading: Reading): seq<Account> {
    if reading.Current? then b.accounts else before
  }

  /** One matured deposit. The new balance is computed from the balance that the query sees. */
  function Mature(b: Bank, seen: seq<Account>, i: nat): (after: Bank)
    requires i < |b.fds| && |seen| == |b.accounts| && b.fds[i].account < |b.accounts|
    ensures |after.accounts| == |b.accounts| && |after.fds| == |b.fds|
  {
    var fd := b.fds[i];
    var newBalance := seen[fd.account].balance + fd.maturityAmount;
    Bank(b.accounts[fd.account := b.accounts[fd.account].(balance := newBalance)],
         b.fds[i := fd.(status := MATURED)],
         b.log + [Receive(FD_MATURITY, fd.account, fd.maturityAmount).(balanceAfter := newBalance)])
  }

  predicate FdsLinked(fds: seq<FixedDeposit>, n: nat) {
    forall i :: 0 <= i < |fds| ==> fds[i].account < n
  }

  function MatureIfDue(b: Bank, before: seq<Account>, i: nat, branch: string, today: int,
                       reading: Reading): (after: Bank)
    requires i < |b.fds| && |before| == |b.accounts| && FdsLinked(b.fds, |b.accounts|)
    ensures |after.accounts| == |b.accounts| && |after.fds| == |b.fds| && FdsLinked(after.fds, |after.accounts|)
  {
    if Due(b.fds[i], branch, today) then Mature(b, Seen(b, before, reading), i) else b
  }

  function MatureFrom(b: Bank, before: seq<Account>, i: nat, branch: string, today: int,
                      reading: Reading): (after: Bank)
    requires i <= |b.fds| && |before| == |b.accounts| && FdsLinked(b.fds, |b.accounts|)
    ensures |after.accounts| == |b.accounts| && |after.fds| == |b.fds|
    decreases |b.fds| - i
  {
    if i == |b.fds| then b
    else MatureFrom(MatureIfDue(b, before, i, branch, today, reading), before, i + 1, branch, today, reading)
  }

  /** State after the interest and dormancy passes of an end-of-day run. */
  function BeforeMaturity(b: Bank, branch: string, recent: set<nat>): (after: Bank)
    ensures |after.accounts| == |b.accounts| && after.fds == b.fds
  {
    var posted := InterestFrom(b, 0, branch);
    posted.(accounts := MarkDormant(posted.accounts, branch, recent))
  }

  function RunEod(b: Bank, branch: string, today: int, recent: set<nat>, reading: Reading): (after: Bank)
    requires FdsLinked(b.fds, |b.accounts|)
    ensures |after.accounts| == |b.accounts|
  {
    var c := BeforeMaturity(b, branch, recent);
    MatureFrom(c, c.accounts, 0, branch, today, reading)
  }

  // ---------- runs ----------

  datatype Op =
    | Transfer(caller: Caller, from: nat, to: nat, amount: int)
    | Cheque(caller: Caller, to: nat, amount: int, number: string, drawerBank: string)
    | Bill(caller: Caller, from: nat, biller: string, identifier: string, amount: int)
    | TellerDeposit(to: nat, amount: int)
    | TellerWithdraw(from: nat, amount: int)
    | CardSpend(from: nat, amount: int, atm: bool)
    | FdCreate(cid: string, from: nat, amount: int, tenure: int, today: int)
    | FdBreak(cid: string, fd: nat)
    | Eod(branch: string, today: int, recent: set<nat>, reading: Reading)

  function Decide(b: Bank, op: Op): Decision
    requires !op.Eod?
  {
    match op
    case Transfer(caller, from, to, amount) => DecideTransfer(b, caller, from, to, amount)
    case Cheque(caller, to, amount, number, drawerBank) => DecideCheque(b, caller, to, amount, number, drawerBank)
    case Bill(caller, from, biller, identifier, amount) => DecideBill(b, caller, from, biller, identifier, amount)
    case TellerDeposit(to, amount) => DecideTellerDeposit(b, to, amount)
    case TellerWithdraw(from, amount) => if amount <= 0 then Refuse(400) else DecideWithdraw(b, from, amount)
    case CardSpend(from, amount, atm) => if amount <= 0 then Refuse(400) else DecideCard(b, from, amount, atm)
    case FdCreate(cid, from, amount, tenure, today) => DecideFdCreate(b, cid, from, amount, tenure, today)
    case FdBreak(cid, fd) => DecideFdBreak(b, cid, fd)
  }

  function Step(b: Bank, op: Op): (after: Bank)
    requires FdsLinked(b.fds, |b.accounts|)
    ensures |after.accounts| == |b.accounts| && FdsLinked(after.fds, |after.accounts|)
  {
    if op.Eod? then
      EodKeepsLinks(b, op.branch, op.today, op.recent, op.reading);
      RunEod(b, op.branch, op.today, op.recent, op.reading)
    else Apply(b, Decide(b, op))
  }

  lemma {:induction false} MatureKeepsLinks(b: Bank, before: seq<Account>, i: nat, branch: string, today: int,
                                            reading: Reading)
    requires i <= |b.fds| && |before| == |b.accounts| && FdsLinked(b.fds, |b.accounts|)
    ensures FdsLinked(MatureFrom(b, before, i, branch, today, reading).fds, |b.accounts|)
    decreases |b.fds| - i
  {
    if i < |b.fds| {
      MatureKeepsLinks(MatureIfDue(b, before, i, branch, today, reading), before, i + 1, branch, today, reading);
    }
  }

  lemma EodKeepsLinks(b: Bank, branch: string, today: int, recent: set<nat>, reading: Reading)
    requires FdsLinked(b.fds, |b.accounts|)
    ensures FdsLinked(RunEod(b, branch, today, recent, reading).fds, |b.accounts|)
  {
    var c := BeforeMaturity(b, branch, recent);
    MatureKeepsLinks(c, c.accounts, 0, branch, today, reading);
  }

  function Run(b: Bank, ops: seq<Op>): (after: Bank)
    requires FdsLinked(b.fds, |b.accounts|)
    ensures |after.accounts| == |b.accounts| && FdsLinked(after.fds, |after.accounts|)
  {
    if ops == [] then b else Step(Run(b, ops[..|ops| - 1]), ops[|ops| - 1])
  }
}
