/** The double-entry general ledger of `go_bff/gl.go`: an incremental projection of the transactions table. */
module GeneralLedger {
  import opened Ledger
  import opened LedgerProofs
  import opened Options

  /** The chart of accounts by code. */
  datatype Code = C1000 | C1100 | C2000 | C2100 | C3000 | C4000 | C4100 | C5000

  datatype Class = ASSET | LIABILITY | EQUITY | INCOME | EXPENSE

  datatype Line = Line(code: Code, debit: int, credit: int)

  /** Rows are booked under a reference: the opening snapshot or the position of a transaction. */
  datatype Ref = Opening | Row(index: nat)

  datatype Entry = Entry(ref: Ref, lineNo: nat, line: Line)

  function Pair(debited: Code, credited: Code, amount: int): seq<Line> {
    [Line(debited, amount, 0), Line(credited, 0, amount)]
  }

  /** The journal lines of a transaction; none for an unrecognised type. */
  function PostingsFor(kind: Kind, amount: int, fee: int): seq<Line> {
    match kind
    case DEPOSIT => Pair(C1000, C2000, amount)
    case CHEQUE_DEPOSIT => Pair(C1000, C2000, amount)
    case WITHDRAWAL => Pair(C2000, C1000, amount)
    case CARD_POS => Pair(C2000, C1000, amount)
    case CARD_ATM => Pair(C2000, C1000, amount)
    case TRANSFER => TransferLines(amount, fee)
    case STANDING_INSTRUCTION => TransferLines(amount, fee)
    case BILL_PAYMENT => Pair(C2000, C1000, amount)
    case IPO_BLOCK => Pair(C2000, C1000, amount)
    case IPO_REFUND => Pair(C1000, C2000, amount)
    case FOREX_UNLOAD => Pair(C1000, C2000, amount)
    case FOREX_LOAD => Pair(C2000, C1000, amount)
    case FD_OPEN => Pair(C2000, C2100, amount)
    case FD_MATURITY => Pair(C2100, C2000, amount)
    case INTEREST => Pair(C5000, C2000, amount)
    case LOAN_DISBURSE => Pair(C1100, C2000, amount)
    case LOAN_EMI => Pair(C2000, C1100, amount)
    case LOAN_PREPAY => Pair(C2000, C1100, amount)
    case LOAN_FORECLOSE => Pair(C2000, C1100, amount)
    case OTHER => []
  }

  function TransferLines(amount: int, fee: int): seq<Line> {
    [Line(C2000, amount + fee, 0), Line(C2000, 0, amount)] + if fee > 0 then [Line(C4000, 0, fee)] else []
  }

  function Numbered(ref: Ref, lines: seq<Line>): (es: seq<Entry>)
    ensures |es| == |lines|
  {
    seq(|lines|, i requires 0 <= i < |lines| => Entry(ref, i, lines[i]))
  }

  /** The journal lines of every row of the transactions table. */
  function Journal(log: seq<Txn>): (rows: seq<seq<Line>>)
    ensures |rows| == |log|
  {
    seq(|log|, i requires 0 <= i < |log| => PostingsFor(log[i].kind, log[i].amount, log[i].fee))
  }

  /** The bookings of rows from..upto-1, in order. */
  function Bookings(rows: seq<seq<Line>>, from: nat, upto: nat): seq<Entry>
    requires from <= upto <= |rows|
  {
    if from == upto then [] else Bookings(rows, from, upto - 1) + Numbered(Row(upto - 1), rows[upto - 1])
  }

  function ActiveTotal(accounts: seq<Account>): int {
    if accounts == [] then 0
    else
      var last := accounts[|accounts| - 1];
      ActiveTotal(accounts[..|accounts| - 1]) + if last.active then last.balance else 0
  }

  function FdTotal(fds: seq<FixedDeposit>): int {
    if fds == [] then 0
    else FdTotal(fds[..|fds| - 1]) + if fds[|fds| - 1].status == ACTIVE then fds[|fds| - 1].principal else 0
  }

  function OpeningLines(deposits: int, fixed: int): seq<Line> {
    [Line(C1000, MathRound((deposits + fixed) as real), 0), Line(C2000, 0, MathRound(deposits as real)),
     Line(C2100, 0, MathRound(fixed as real))]
  }

  function OpeningEntries(b: Bank): seq<Entry> {
    Numbered(Opening, OpeningLines(ActiveTotal(b.accounts), FdTotal(b.fds)))
  }

  // ---------- synchronisation ----------

  predicate Referenced(entries: seq<Entry>, ref: Ref) {
    exists k :: 0 <= k < |entries| && entries[k].ref == ref
  }

  predicate Present(entries: seq<Entry>, ref: Ref, lineNo: nat) {
    exists k :: 0 <= k < |entries| && entries[k].ref == ref && entries[k].lineNo == lineNo
  }

  /** The entries of a ledger opened at row `start` and synchronised up to row `upto`. */
  ghost predicate BookedUpTo(entries: seq<Entry>, opening: seq<Entry>, rows: seq<seq<Line>>, start: nat, upto: nat) {
    && start <= upto <= |rows|
    && (forall k :: 0 <= k < |opening| ==> opening[k].ref == Opening)
    && entries == opening + Bookings(rows, start, upto)
  }

  predicate RefsWithin(entries: seq<Entry>, from: nat, upto: nat) {
    forall k :: 0 <= k < |entries| ==> entries[k].ref.Row? && from <= entries[k].ref.index < upto
  }

  lemma {:induction false} BookingsRefs(rows: seq<seq<Line>>, from: nat, upto: nat)
    requires from <= upto <= |rows|
    ensures RefsWithin(Bookings(rows, from, upto), from, upto)
  {
    if from < upto { BookingsRefs(rows, from, upto - 1); }
  }

  lemma {:induction false} BookingsContain(rows: seq<seq<Line>>, from: nat, upto: nat, i: nat)
    requires from <= i < upto <= |rows| && rows[i] != []
    ensures Referenced(Bookings(rows, from, upto), Row(i))
  {
    var before := Bookings(rows, from, upto - 1);
    if i == upto - 1 {
      assert Bookings(rows, from, upto)[|before|].ref == Row(i);
    } else {
      BookingsContain(rows, from, upto - 1, i);
      var k :| 0 <= k < |before| && before[k].ref == Row(i);
      assert Bookings(rows, from, upto)[k].ref == Row(i);
    }
  }

  lemma {:induction false} NeverBooked(rows: seq<seq<Line>>, from: nat, upto: nat, i: nat)
    requires from <= upto <= |rows| && i < |rows| && rows[i] == []
    ensures !Referenced(Bookings(rows, from, upto), Row(i))
  {
    if from < upto { NeverBooked(rows, from, upto - 1, i); }
  }

  lemma ReferencedInSuffix(prefix: seq<Entry>, suffix: seq<Entry>, ref: Ref)
    requires Referenced(suffix, ref)
    ensures Referenced(prefix + suffix, ref)
  {
    var k :| 0 <= k < |suffix| && suffix[k].ref == ref;
    assert (prefix + suffix)[|prefix| + k] == suffix[k];
  }

  /** In a ledger booked up to some row, the rows still to be booked are exactly the recognised later ones. */
  lemma ReferencedIff(entries: seq<Entry>, opening: seq<Entry>, rows: seq<seq<Line>>, start: nat, upto: nat, i: nat)
    requires BookedUpTo(entries, opening, rows, start, upto) && start <= i < |rows|
    ensures Referenced(entries, Row(i)) <==> i < upto && rows[i] != []
  {
    var booked := Bookings(rows, start, upto);
    if Referenced(entries, Row(i)) {
      var k :| 0 <= k < |entries| && entries[k].ref == Row(i);
      assert entries[k] == booked[k - |opening|];
      BookingsRefs(rows, start, upto);
      if rows[i] == [] { NeverBooked(rows, start, upto, i); }
    } else if i < upto && rows[i] != [] {
      BookingsContain(rows, start, upto, i);
      ReferencedInSuffix(opening, booked, Row(i));
    }
  }

  /** Later rows do not change earlier bookings. */
  lemma {:induction false} BookingsOfPrefix(rows: seq<seq<Line>>, longer: seq<seq<Line>>, from: nat, upto: nat)
    requires from <= upto <= |rows| && rows <= longer
    ensures Bookings(longer, from, upto) == Bookings(rows, from, upto)
  {
    if from < upto { BookingsOfPrefix(rows, longer, from, upto - 1); }
  }

  class GeneralLedger {
    var entries: seq<Entry>
    var openedAt: Option<nat>
    ghost var opening: seq<Entry>
    ghost var syncedTo: nat

    /** Relative to a transactions table: nothing is booked before the opening snapshot, and after it every
        recognised row up to the last synchronisation is booked exactly once, in order, and nothing else is. */
    ghost predicate Valid(log: seq<Txn>)
      reads this
    {
      if openedAt.None? then entries == []
      else BookedUpTo(entries, opening, Journal(log), openedAt.value, syncedTo)
    }

    /** New transactions leave the ledger as it is: valid, but out of date. */
    lemma StaysValid(log: seq<Txn>, longer: seq<Txn>)
      requires Valid(log) && log <= longer
      ensures Valid(longer)
    {
      if openedAt.Some? {
        assert Journal(log) <= Journal(longer);
        BookingsOfPrefix(Journal(log), Journal(longer), openedAt.value, syncedTo);
      }
    }

    constructor ()
      ensures openedAt.None? && forall log :: Valid(log)
    {
      entries, openedAt, opening, syncedTo := [], None, [], 0;
    }

    /** INSERT OR IGNORE under the unique key (reference, line number). */
    method Post(ref: Ref, lines: seq<Line>)
      requires !Referenced(entries, ref)
      modifies this`entries
      ensures entries == old(entries) + Numbered(ref, lines)
    {
      for i := 0 to |lines|
        invariant entries == old(entries) + Numbered(ref, lines)[..i]
        invariant forall k :: 0 <= k < |old(entries)| ==> entries[k].ref != ref
      {
        if !Present(entries, ref, i) { entries := entries + [Entry(ref, i, lines[i])]; }
      }
    }

    /** Brings the ledger up to date with the bank, taking the opening snapshot first if there is none. */
    method Sync(b: Bank)
      requires Valid(b.log)
      modifies this
      ensures Valid(b.log) && openedAt.Some? && syncedTo == |b.log|
      ensures old(openedAt).Some? ==> openedAt == old(openedAt) && opening == old(opening)
      ensures old(openedAt).None? ==> openedAt == Some(|b.log|) && opening == OpeningEntries(b)
      ensures old(openedAt).Some? && old(syncedTo) == |b.log| ==> entries == old(entries)
    {
      if openedAt.None? {
        var lines := OpeningLines(ActiveTotal(b.accounts), FdTotal(b.fds));
        Post(Opening, lines);
        opening := entries;
        openedAt, syncedTo := Some(|b.log|), |b.log|;
      }
      BookNew(Journal(b.log), openedAt.value, syncedTo);
      syncedTo := |b.log|;
    }

    /** Books every row after the opening snapshot whose reference was not in the ledger when the pass began. */
    method BookNew(rows: seq<seq<Line>>, start: nat, ghost upto: nat)
      requires BookedUpTo(entries, opening, rows, start, upto)
      modifies this`entries
      ensures BookedUpTo(entries, opening, rows, start, |rows|)
      ensures upto == |rows| ==> entries == old(entries)
    {
      var booked := entries;
      for i := start to |rows|
        invariant BookedUpTo(entries, opening, rows, start, if i < upto then upto else i)
        invariant i <= upto ==> entries == old(entries)
      {
        ReferencedIff(booked, opening, rows, start, upto, i);
        if !Referenced(booked, Row(i)) {
          if rows[i] != [] { BookRow(rows, start, i); }
        }
      }
    }

    method BookRow(rows: seq<seq<Line>>, ghost start: nat, i: nat)
      requires start <= i < |rows| && BookedUpTo(entries, opening, rows, start, i)
      modifies this`entries
      ensures BookedUpTo(entries, opening, rows, start, i + 1)
    {
      ReferencedIff(entries, opening, rows, start, i, i);
      Post(Row(i), rows[i]);
    }
  }

  // ---------- totals ----------

  function TotalDebit(entries: seq<Entry>): int {
    if entries == [] then 0 else TotalDebit(entries[..|entries| - 1]) + entries[|entries| - 1].line.debit
  }

  function TotalCredit(entries: seq<Entry>): int {
    if entries == [] then 0 else TotalCredit(entries[..|entries| - 1]) + entries[|entries| - 1].line.credit
  }

  /** Debits minus credits of one account. */
  function NetDebit(entries: seq<Entry>, c: Code): int {
    if entries == [] then 0
    else
      var l := entries[|entries| - 1].line;
      NetDebit(entries[..|entries| - 1], c) + if l.code == c then l.debit - l.credit else 0
  }

  lemma {:induction false} TotalsAppend(x: seq<Entry>, y: seq<Entry>)
    ensures TotalDebit(x + y) == TotalDebit(x) + TotalDebit(y)
    ensures TotalCredit(x + y) == TotalCredit(x) + TotalCredit(y)
  {
    if y == [] {
      assert x + y == x;
    } else {
      assert (x + y)[..|x + y| - 1] == x + y[..|y| - 1];
      TotalsAppend(x, y[..|y| - 1]);
    }
  }

  lemma {:induction false} NetAppends(x: seq<Entry>, y: seq<Entry>, c: Code)
    ensures NetDebit(x + y, c) == NetDebit(x, c) + NetDebit(y, c)
  {
    if y == [] {
      assert x + y == x;
    } else {
      assert (x + y)[..|x + y| - 1] == x + y[..|y| - 1];
      NetAppends(x, y[..|y| - 1], c);
    }
  }

  function LineDebits(lines: seq<Line>): int {
    if lines == [] then 0 else LineDebits(lines[..|lines| - 1]) + lines[|lines| - 1].debit
  }

  function LineCredits(lines: seq<Line>): int {
    if lines == [] then 0 else LineCredits(lines[..|lines| - 1]) + lines[|lines| - 1].credit
  }

  function LineNet(lines: seq<Line>, c: Code): int {
    if lines == [] then 0
    else
      var l := lines[|lines| - 1];
      LineNet(lines[..|lines| - 1], c) + if l.code == c then l.debit - l.credit else 0
  }

  /** Entries carry the sums of their lines. */
  lemma {:induction false} NumberedSums(ref: Ref, lines: seq<Line>, c: Code)
    ensures TotalDebit(Numbered(ref, lines)) == LineDebits(lines)
    ensures TotalCredit(Numbered(ref, lines)) == LineCredits(lines)
    ensures NetDebit(Numbered(ref, lines), c) == LineNet(lines, c)
  {
    if lines != [] {
      assert Numbered(ref, lines)[..|lines| - 1] == Numbered(ref, lines[..|lines| - 1]);
      NumberedSums(ref, lines[..|lines| - 1], c);
    }
  }

  lemma LinesOf(lines: seq<Line>, c: Code)
    requires 2 <= |lines| <= 3
    ensures var third := if |lines| == 3 then lines[2] else Line(c, 0, 0);
            && LineDebits(lines) == lines[0].debit + lines[1].debit + third.debit
            && LineCredits(lines) == lines[0].credit + lines[1].credit + third.credit
            && LineNet(lines, c) == (if lines[0].code == c then lines[0].debit - lines[0].credit else 0)
                                 + (if lines[1].code == c then lines[1].debit - lines[1].credit else 0)
                                 + (if third.code == c then third.debit - third.credit else 0)
  {
    var two, one := lines[..2], lines[..1];
    assert two[..1] == one && one[..0] == [] && (|lines| == 2 ==> lines == two);
    assert LineDebits(one) == lines[0].debit && LineCredits(one) == lines[0].credit;
    assert LineNet(one, c) == if lines[0].code == c then lines[0].debit - lines[0].credit else 0;
    assert LineDebits(two) == LineDebits(one) + lines[1].debit
        && LineCredits(two) == LineCredits(one) + lines[1].credit;
    assert LineNet(two, c) == LineNet(one, c) + if lines[1].code == c then lines[1].debit - lines[1].credit else 0;
  }

  /** Every posting of a transaction with a non-negative fee has equal debits and credits. */
  lemma PostingBalances(kind: Kind, amount: int, fee: int)
    requires fee >= 0
    ensures LineDebits(PostingsFor(kind, amount, fee)) == LineCredits(PostingsFor(kind, amount, fee))
  {
    var lines := PostingsFor(kind, amount, fee);
    if lines != [] { LinesOf(lines, C1000); }
  }

  predicate RowsBalance(rows: seq<seq<Line>>, start: nat) {
    forall i :: start <= i < |rows| ==> LineDebits(rows[i]) == LineCredits(rows[i])
  }

  lemma {:induction false} BookingsBalance(rows: seq<seq<Line>>, from: nat, upto: nat)
    requires from <= upto <= |rows| && RowsBalance(rows, from)
    ensures TotalDebit(Bookings(rows, from, upto)) == TotalCredit(Bookings(rows, from, upto))
  {
    if from < upto {
      var last := upto - 1;
      BookingsBalance(rows, from, last);
      NumberedSums(Row(last), rows[last], C1000);
      TotalsAppend(Bookings(rows, from, last), Numbered(Row(last), rows[last]));
    }
  }

  lemma OpeningTotals(b: Bank, c: Code)
    requires ActiveTotal(b.accounts) >= 0 && FdTotal(b.fds) >= 0
    ensures TotalDebit(OpeningEntries(b)) == TotalCredit(OpeningEntries(b))
    ensures c == C1000 ==> NetDebit(OpeningEntries(b), c) == ActiveTotal(b.accounts) + FdTotal(b.fds)
    ensures c == C2000 ==> NetDebit(OpeningEntries(b), c) == -ActiveTotal(b.accounts)
    ensures c == C2100 ==> NetDebit(OpeningEntries(b), c) == -FdTotal(b.fds)
    ensures c !in {C1000, C2000, C2100} ==> NetDebit(OpeningEntries(b), c) == 0
  {
    var deposits, fixed := ActiveTotal(b.accounts), FdTotal(b.fds);
    MathRoundWhole(deposits);
    MathRoundWhole(fixed);
    MathRoundWhole(deposits + fixed);
    LinesOf(OpeningLines(deposits, fixed), c);
    NumberedSums(Opening, OpeningLines(deposits, fixed), c);
  }

  predicate FeesOk(log: seq<Txn>, start: nat) {
    forall i :: start <= i < |log| ==> log[i].fee >= 0
  }

  /** Total debits equal total credits after any interleaving of operations and synchronisations. */
  lemma DebitsEqualCredits(entries: seq<Entry>, b: Bank, log: seq<Txn>, start: nat, upto: nat)
    requires BookedUpTo(entries, OpeningEntries(b), Journal(log), start, upto)
    requires ActiveTotal(b.accounts) >= 0 && FdTotal(b.fds) >= 0 && FeesOk(log, start)
    ensures TotalDebit(entries) == TotalCredit(entries)
  {
    OpeningTotals(b, C1000);
    forall i | start <= i < |log| ensures LineDebits(Journal(log)[i]) == LineCredits(Journal(log)[i]) {
      PostingBalances(log[i].kind, log[i].amount, log[i].fee);
    }
    BookingsBalance(Journal(log), start, upto);
    TotalsAppend(OpeningEntries(b), Bookings(Journal(log), start, upto));
  }

  /** Debits minus credits over all accounts of the chart. */
  function NetAll(entries: seq<Entry>): int {
    NetDebit(entries, C1000) + NetDebit(entries, C1100) + NetDebit(entries, C2000) + NetDebit(entries, C2100)
    + NetDebit(entries, C3000) + NetDebit(entries, C4000) + NetDebit(entries, C4100) + NetDebit(entries, C5000)
  }

  lemma {:induction false} NetAllIsDifference(entries: seq<Entry>)
    ensures NetAll(entries) == TotalDebit(entries) - TotalCredit(entries)
  {
    if entries != [] { NetAllIsDifference(entries[..|entries| - 1]); }
  }

  // ---------- the reports ----------

  /** Each account's balance on its normal side: a non-negative net debit in the debit column, otherwise its
      opposite in the credit column. */
  function DebitColumn(net: int): int {
    if net >= 0 then MathRound(net as real) else 0
  }

  function CreditColumn(net: int): int {
    if net >= 0 then 0 else MathRound(-net as real)
  }

  const CHART: seq<Code> := [C1000, C1100, C2000, C2100, C3000, C4000, C4100, C5000]

  /** The trial balance of a ledger whose debits equal its credits is always reported as balanced. */
  method TrialBalance(entries: seq<Entry>) returns (totalDebit: int, totalCredit: int, balanced: bool)
    ensures balanced <==> TotalDebit(entries) == TotalCredit(entries)
    ensures totalDebit - totalCredit == TotalDebit(entries) - TotalCredit(entries)
    ensures totalDebit == PositivePart(entries, CHART)
  {
    totalDebit, totalCredit := 0, 0;
    for i := 0 to |CHART|
      invariant totalDebit - totalCredit == NetOf(entries, CHART[..i])
      invariant totalDebit == PositivePart(entries, CHART[..i])
    {
      var bal := NetDebit(entries, CHART[i]);
      MathRoundWhole(bal);
      MathRoundWhole(-bal);
      totalDebit := totalDebit + DebitColumn(bal);
      totalCredit := totalCredit + CreditColumn(bal);
      assert CHART[..i + 1][..i] == CHART[..i];
    }
    assert CHART[..|CHART|] == CHART;
    ChartIsComplete(entries);
    NetAllIsDifference(entries);
    balanced := totalDebit == totalCredit;
  }

  /** The sum of the accounts that stand on their debit side. */
  function PositivePart(entries: seq<Entry>, codes: seq<Code>): int {
    if codes == [] then 0
    else
      var net := NetDebit(entries, codes[|codes| - 1]);
      PositivePart(entries, codes[..|codes| - 1]) + if net > 0 then net else 0
  }

  function NetOf(entries: seq<Entry>, codes: seq<Code>): int {
    if codes == [] then 0 else NetOf(entries, codes[..|codes| - 1]) + NetDebit(entries, codes[|codes| - 1])
  }

  lemma ChartIsComplete(entries: seq<Entry>)
    ensures NetOf(entries, CHART) == NetAll(entries)
  {
    var a := CHART;
    assert a[..7][..6] == a[..6] && a[..6][..5] == a[..5] && a[..5][..4] == a[..4] && a[..4][..3] == a[..3];
    assert a[..3][..2] == a[..2] && a[..2][..1] == a[..1] && a[..1][..0] == [];
    assert NetOf(entries, a[..1]) == NetDebit(entries, C1000);
    assert NetOf(entries, a[..2]) == NetOf(entries, a[..1]) + NetDebit(entries, C1100);
    assert NetOf(entries, a[..4]) == NetOf(entries, a[..2]) + NetDebit(entries, C2000) + NetDebit(entries, C2100);
    assert NetOf(entries, a[..6]) == NetOf(entries, a[..4]) + NetDebit(entries, C3000) + NetDebit(entries, C4000);
    assert NetOf(entries, a) == NetOf(entries, a[..6]) + NetDebit(entries, C4100) + NetDebit(entries, C5000);
  }
}
