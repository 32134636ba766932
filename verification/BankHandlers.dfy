/** The money-moving handlers as they run: each reads the rows it needs, checks its guards in order, overwrites
    balances and appends to the transactions table. Every handler is proved against its step in `Ledger.dfy`. */
module BankHandlers {
  import opened Ledger
  import opened Options

  class Core {
    var accounts: seq<Account>
    var fds: seq<FixedDeposit>
    var log: seq<Txn>

    ghost function View(): Bank
      reads this
    {
      Bank(accounts, fds, log)
    }

    constructor (accounts: seq<Account>, fds: seq<FixedDeposit>, log: seq<Txn>)
      ensures View() == Bank(accounts, fds, log)
    {
      this.accounts, this.fds, this.log := accounts, fds, log;
    }

    method SetBalance(a: nat, balance: int)
      requires a < |accounts|
      modifies this`accounts
      ensures accounts == old(accounts)[a := old(accounts)[a].(balance := balance)]
    {
      accounts := accounts[a := accounts[a].(balance := balance)];
    }

    method Insert(t: Txn)
      modifies this`log
      ensures log == old(log) + [t]
    {
      log := log + [t];
    }

    /** Returns 0 for success, otherwise the HTTP status of the refusal. */
    method Transfer(caller: Caller, from: nat, to: nat, amount: int) returns (code: int)
      modifies this
      ensures View() == Apply(old(View()), DecideTransfer(old(View()), caller, from, to, amount))
      ensures code == Code(DecideTransfer(old(View()), caller, from, to, amount))
    {
      if amount <= 0 { return 400; }
      if from == to { return 400; }
      if from >= |accounts| { return 404; }
      if caller.isCustomer && accounts[from].owner != caller.cid { return 403; }
      if to >= |accounts| { return 404; }
      var fromBalance, toBalance := accounts[from].balance, accounts[to].balance;
      var fee := 0;
      if amount > 1000000 { fee := MathRound(amount as real / 1000.0); }
      var totalDebit := amount + fee;
      if fromBalance < totalDebit { return 400; }
      if fromBalance - totalDebit < accounts[from].minBalance { return 400; }
      var newFrom, newTo := fromBalance - totalDebit, toBalance + amount;
      SetBalance(from, newFrom);
      SetBalance(to, newTo);
      Insert(Txn(TRANSFER, Some(from), Some(to), amount, fee, "", newFrom));
      code := 0;
    }

    method ChequeDeposit(caller: Caller, to: nat, amount: int, number: string, drawerBank: string) returns (code: int)
      modifies this
      ensures View() == Apply(old(View()), DecideCheque(old(View()), caller, to, amount, number, drawerBank))
      ensures code == Code(DecideCheque(old(View()), caller, to, amount, number, drawerBank))
    {
      if amount <= 0 { return 400; }
      if to >= |accounts| { return 404; }
      if caller.isCustomer && accounts[to].owner != caller.cid { return 403; }
      if number != "" {
        var count := 0;
        for i := 0 to |log|
          invariant count > 0 <==> ChequeSeen(log[..i], number)
        {
          if log[i].kind == CHEQUE_DEPOSIT && Like(ChequePattern(number), log[i].description) {
            assert log[..i + 1][i] == log[i];
            count := count + 1;
          }
          assert ChequeSeen(log[..i + 1], number) <==>
            || ChequeSeen(log[..i], number)
            || (log[i].kind == CHEQUE_DEPOSIT && Like(ChequePattern(number), log[i].description)) by {
            forall k | 0 <= k < i ensures log[..i + 1][k] == log[..i][k] {}
          }
        }
        assert log[..|log|] == log;
        if count > 0 { return 409; }
      }
      var newBalance := accounts[to].balance + amount;
      SetBalance(to, newBalance);
      var text := "Cheque deposit (" + ("cheque " + number);
      if drawerBank != "" { text := text + (", " + drawerBank); }
      text := text + ")";
      assert text == ChequeText(number, drawerBank);
      Insert(Txn(CHEQUE_DEPOSIT, None, Some(to), amount, 0, text, newBalance));
      code := 0;
    }

    method BillPay(caller: Caller, from: nat, biller: string, identifier: string, amount: int) returns (code: int)
      modifies this
      ensures View() == Apply(old(View()), DecideBill(old(View()), caller, from, biller, identifier, amount))
      ensures code == Code(DecideBill(old(View()), caller, from, biller, identifier, amount))
    {
      if biller !in BILLERS { return 400; }
      if amount <= 0 { return 400; }
      if Blank(identifier) { return 400; }
      if from >= |accounts| { return 404; }
      if caller.isCustomer && accounts[from].owner != caller.cid { return 403; }
      var balance := accounts[from].balance;
      if balance < amount { return 400; }
      if balance - amount < accounts[from].minBalance { return 400; }
      MathRoundWhole(balance - amount);
      var newBalance := MathRound((balance - amount) as real);
      SetBalance(from, newBalance);
      Insert(Txn(BILL_PAYMENT, Some(from), None, amount, 0, "", newBalance));
      code := 0;
    }

    method TellerDeposit(to: nat, amount: int) returns (code: int)
      modifies this
      ensures View() == Apply(old(View()), DecideTellerDeposit(old(View()), to, amount))
      ensures code == Code(DecideTellerDeposit(old(View()), to, amount))
    {
      if amount <= 0 { return 400; }
      if to >= |accounts| { return 404; }
      var newBalance := accounts[to].balance + amount;
      SetBalance(to, newBalance);
      Insert(Txn(DEPOSIT, None, Some(to), amount, 0, "", newBalance));
      code := 0;
    }

    method WithdrawCore(from: nat, amount: int) returns (code: int)
      modifies this
      ensures View() == Apply(old(View()), DecideWithdraw(old(View()), from, amount))
      ensures code == Code(DecideWithdraw(old(View()), from, amount))
    {
      if from >= |accounts| { return 404; }
      if accounts[from].balance < amount { return 400; }
      var newBalance := accounts[from].balance - amount;
      SetBalance(from, newBalance);
      Insert(Txn(WITHDRAWAL, Some(from), None, amount, 0, "", newBalance));
      code := 0;
    }

    method CardDebit(from: nat, amount: int, atm: bool) returns (code: int)
      modifies this
      ensures View() == Apply(old(View()), DecideCard(old(View()), from, amount, atm))
      ensures code == Code(DecideCard(old(View()), from, amount, atm))
    {
      if from >= |accounts| { return 404; }
      if accounts[from].balance < amount { return 402; }
      var newBalance := accounts[from].balance - amount;
      SetBalance(from, newBalance);
      Insert(Txn(if atm then CARD_ATM else CARD_POS, Some(from), None, amount, 0, "", newBalance));
      code := 0;
    }

    method FdCreate(cid: string, from: nat, principal: int, tenure: int, today: int) returns (code: int)
      modifies this
      ensures View() == Apply(old(View()), DecideFdCreate(old(View()), cid, from, principal, tenure, today))
      ensures code == Code(DecideFdCreate(old(View()), cid, from, principal, tenure, today))
    {
      if principal < 100000 { return 400; }
      var rate := FdRate(tenure);
      if rate.None? { return 400; }
      if from >= |accounts| { return 404; }
      if accounts[from].owner != cid { return 403; }
      if accounts[from].balance < principal { return 400; }
      var maturityAmount := MaturityAmount(principal, rate.value, tenure);
      SetBalance(from, accounts[from].balance - principal);
      var day := today + tenure * 30;
      fds := fds + [FixedDeposit(cid, from, accounts[from].branch, principal, maturityAmount, day, ACTIVE)];
      Insert(Txn(FD_OPEN, Some(from), None, principal, 0, "", accounts[from].balance));
      code := 0;
    }

    method FdBreak(cid: string, fd: nat) returns (code: int)
      modifies this
      ensures View() == Apply(old(View()), DecideFdBreak(old(View()), cid, fd))
      ensures code == Code(DecideFdBreak(old(View()), cid, fd))
    {
      if fd >= |fds| || fds[fd].owner != cid || fds[fd].account >= |accounts| { return 404; }
      if fds[fd].status != ACTIVE { return 400; }
      var penalty := BreakPenalty(fds[fd].principal);
      var refund := BreakRefund(fds[fd].principal);
      var a := fds[fd].account;
      var newBalance := accounts[a].balance + refund;
      SetBalance(a, newBalance);
      fds := fds[fd := fds[fd].(status := BROKEN)];
      Insert(Txn(FD_OPEN, None, Some(a), refund, penalty, "", newBalance));
      code := 0;
    }

    /** An end-of-day run with a pool of so many connections. The rows of a pass and the transaction it writes with
        occupy one each, and the balance query of the maturity pass needs a third; with too few the handler waits for
        itself forever. It finishes exactly with three, or with two and no deposit due. */
    method RunEod(pool: nat, branch: string, today: int, recent: set<nat>, reading: Reading)
      returns (finished: bool, interestCount: nat, interestTotal: int, maturedCount: nat, maturedTotal: int)
      requires FdsLinked(fds, |accounts|)
      modifies this
      ensures finished <==> pool >= 3 || (pool == 2 && !SomeDue(old(fds), branch, today))
      ensures finished ==> View() == Ledger.RunEod(old(View()), branch, today, recent, reading)
      ensures finished ==> Reported(old(log), log, interestCount, interestTotal, maturedCount, maturedTotal)
      ensures !finished ==> View() == if pool < 2 then old(View()) else BeforeMaturity(old(View()), branch, recent)
    {
      finished, interestCount, interestTotal, maturedCount, maturedTotal := false, 0, 0, 0, 0;
      if pool < 2 { return; }
      interestCount, interestTotal := PostAndMark(branch, recent);
      if pool < 3 && SomeDue(fds, branch, today) { return; }
      ghost var posted := log;
      maturedCount, maturedTotal := MatureDue(branch, today, reading);
      BothReported(old(log), posted, log, interestCount, interestTotal, maturedCount, maturedTotal);
      finished := true;
    }

    /** The interest and dormancy passes. */
    method PostAndMark(branch: string, recent: set<nat>) returns (count: nat, total: int)
      modifies this`accounts, this`log
      ensures View() == BeforeMaturity(old(View()), branch, recent)
      ensures |log| == |old(log)| + count && log[..|old(log)|] == old(log)
      ensures forall i :: |old(log)| <= i < |log| ==> log[i].kind == INTEREST
      ensures total == Amounts(log[|old(log)|..])
    {
      count, total := PostInterest(branch);
      accounts := MarkDormant(accounts, branch, recent);
    }

    method PostInterest(branch: string) returns (count: nat, total: int)
      modifies this`accounts, this`log
      ensures View() == InterestFrom(old(View()), 0, branch)
      ensures |log| == |old(log)| + count && log[..|old(log)|] == old(log)
      ensures forall i :: |old(log)| <= i < |log| ==> log[i].kind == INTEREST
      ensures total == Amounts(log[|old(log)|..])
    {
      count, total := 0, 0;
      for a := 0 to |accounts|
        invariant |accounts| == |old(accounts)| && fds == old(fds)
        invariant InterestFrom(View(), a, branch) == InterestFrom(old(View()), 0, branch)
        invariant |log| == |old(log)| + count && log[..|old(log)|] == old(log)
        invariant forall i :: |old(log)| <= i < |log| ==> log[i].kind == INTEREST
        invariant total == Amounts(log[|old(log)|..])
      {
        ghost var before := log;
        var posted, interest := PayInterest(a, branch);
        if posted {
          count, total := count + 1, total + interest;
          AppendedSlice(before, log[|before|], |old(log)|);
        }
      }
    }

    method PayInterest(a: nat, branch: string) returns (posted: bool, interest: int)
      requires a < |accounts|
      modifies this`accounts, this`log
      ensures View() == Apply(old(View()), DecideInterest(old(View()), a, branch)) && |accounts| == |old(accounts)|
      ensures !posted ==> log == old(log)
      ensures posted ==> |log| == |old(log)| + 1 && log == old(log) + [log[|old(log)|]]
      ensures posted ==> log[|old(log)|].kind == INTEREST && log[|old(log)|].amount == interest
    {
      var daily := DailyInterest(accounts[a]);
      if !EarnsInterest(accounts[a], branch) || daily < 1.0 { return false, 0; }
      interest := MathRound(daily);
      var newBalance := accounts[a].balance + interest;
      SetBalance(a, newBalance);
      Insert(Txn(INTEREST, None, Some(a), interest, 0, "", newBalance));
      posted := true;
    }

    method MatureDue(branch: string, today: int, reading: Reading) returns (count: nat, total: int)
      requires FdsLinked(fds, |accounts|)
      modifies this
      ensures View() == MatureFrom(old(View()), old(accounts), 0, branch, today, reading)
      ensures |log| == |old(log)| + count && log[..|old(log)|] == old(log)
      ensures total == Amounts(log[|old(log)|..])
    {
      count, total := 0, 0;
      var before := accounts;
      for i := 0 to |fds|
        invariant |accounts| == |before| && |fds| == |old(fds)| && FdsLinked(fds, |accounts|)
        invariant MatureFrom(View(), before, i, branch, today, reading)
           == MatureFrom(old(View()), before, 0, branch, today, reading)
        invariant |log| == |old(log)| + count && log[..|old(log)|] == old(log)
        invariant total == Amounts(log[|old(log)|..])
      {
        if Due(fds[i], branch, today) {
          ghost var logged := log;
          count, total := count + 1, total + fds[i].maturityAmount;
          MatureOne(if reading.Current? then accounts else before, i);
          AppendedSlice(logged, log[|logged|], |old(log)|);
        }
      }
    }

    method MatureOne(seen: seq<Account>, i: nat)
      requires i < |fds| && |seen| == |accounts| && fds[i].account < |accounts|
      modifies this
      ensures View() == Mature(old(View()), seen, i)
      ensures log == old(log) + [log[|old(log)|]] && log[|old(log)|].amount == old(fds)[i].maturityAmount
    {
      var a, amount := fds[i].account, fds[i].maturityAmount;
      var newBalance := seen[a].balance + amount;
      SetBalance(a, newBalance);
      Insert(Txn(FD_MATURITY, None, Some(a), amount, 0, "", newBalance));
      fds := fds[i := fds[i].(status := MATURED)];
    }
  }

  function Code(d: Decision): int {
    if d.Refuse? then d.code else 0
  }

  function Amounts(rows: seq<Txn>): int {
    if rows == [] then 0 else Amounts(rows[..|rows| - 1]) + rows[|rows| - 1].amount
  }

  predicate SomeDue(fds: seq<FixedDeposit>, branch: string, today: int) {
    exists i :: 0 <= i < |fds| && Due(fds[i], branch, today)
  }

  /** The reported counts and totals are those of the appended rows: interest first, then maturities. */
  predicate Reported(before: seq<Txn>, log: seq<Txn>, interestCount: nat, interestTotal: int,
                     maturedCount: nat, maturedTotal: int) {
    && |log| == |before| + interestCount + maturedCount
    && (forall i :: |before| <= i < |before| + interestCount ==> log[i].kind == INTEREST)
    && interestTotal == Amounts(log[|before|..|before| + interestCount])
    && maturedTotal == Amounts(log[|before| + interestCount..])
  }

  lemma BothReported(before: seq<Txn>, posted: seq<Txn>, log: seq<Txn>, interestCount: nat, interestTotal: int,
                     maturedCount: nat, maturedTotal: int)
    requires |posted| == |before| + interestCount && |log| == |posted| + maturedCount && log[..|posted|] == posted
    requires forall i :: |before| <= i < |posted| ==> posted[i].kind == INTEREST
    requires interestTotal == Amounts(posted[|before|..]) && maturedTotal == Amounts(log[|posted|..])
    ensures Reported(before, log, interestCount, interestTotal, maturedCount, maturedTotal)
  {
    assert log[|before|..|before| + interestCount] == posted[|before|..];
  }

  lemma AppendedSlice(log: seq<Txn>, t: Txn, start: nat)
    requires start <= |log|
    ensures Amounts((log + [t])[start..]) == Amounts(log[start..]) + t.amount
    ensures (log + [t])[..start] == log[..start]
  {
    assert (log + [t])[start..][..|log| - start] == log[start..];
  }
}
