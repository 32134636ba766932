/** When a numbered cheque is refused: the LIKE search of `go_bff/banking.go` over the logged deposits. */
module Cheques {
  import opened HashText
  import opened Ledger
  import opened LedgerProofs

  // ---------- the search for a number ----------

  /** A text matches itself, even if it contains wildcards. */
  lemma {:induction false} LikeSelf(s: string, pattern: string, text: string)
    requires Like(pattern, text)
    ensures Like(s + pattern, s + text)
  {
    if s == "" {
      assert s + pattern == pattern && s + text == text;
    } else {
      LikeSelf(s[1..], pattern, text);
      assert (s + pattern)[1..] == s[1..] + pattern && (s + text)[1..] == s[1..] + text;
      assert (s + pattern)[0] == s[0] == (s + text)[0];
      assert s[0] == '%' ==> Like((s + pattern)[1..], (s + text)[1..]) && Like(s + pattern, (s + text)[1..]);
    }
  }

  lemma {:induction false} PercentMatches(text: string)
    ensures Like("%", text)
  {
    if text != "" { PercentMatches(text[1..]); }
  }

  lemma {:induction false} PercentSkips(lead: string, pattern: string, text: string)
    requires Like(pattern, text)
    ensures Like("%" + pattern, lead + text)
  {
    assert ("%" + pattern)[1..] == pattern;
    if lead == "" {
      assert lead + text == text;
    } else {
      PercentSkips(lead[1..], pattern, text);
      assert (lead + text)[1..] == lead[1..] + text;
    }
  }

  /** The text logged for a cheque matches the search for its number, and for every beginning of its number. */
  lemma ChequeTextMatches(number: string, more: string, drawerBank: string)
    ensures Like(ChequePattern(number), ChequeText(number + more, drawerBank))
  {
    var tail := more + (if drawerBank == "" then "" else ", " + drawerBank) + ")";
    PercentMatches(tail);
    LikeSelf(number, "%", tail);
    LikeSelf("cheque ", number + "%", number + tail);
    PercentSkips("Cheque deposit (", "cheque " + (number + "%"), "cheque " + (number + tail));
    assert ChequeText(number + more, drawerBank) == "Cheque deposit (" + ("cheque " + (number + tail));
  }

  /** Once a numbered cheque has been deposited, no later deposit of that number is ever accepted, nor of any number
      that it begins with. */
  lemma ChequeOnlyOnce(b: Bank, first: Op, ops: seq<Op>, again: Op)
    requires FdsLinked(b.fds, |b.accounts|) && first.Cheque? && again.Cheque? && again.number != ""
    requires again.number <= first.number && Decide(b, first).Book?
    ensures Decide(Run(Step(b, first), ops), again).Refuse?
  {
    var c, more := Step(b, first), first.number[|again.number|..];
    LogGrows(c, ops);
    assert first.number == again.number + more;
    ChequeTextMatches(again.number, more, first.drawerBank);
    assert c.log[|b.log|].description == ChequeText(first.number, first.drawerBank);
    assert Run(c, ops).log[|b.log|] == c.log[|b.log|];
  }

  // ---------- what LIKE means ----------

  /** A percent sign stands for any text, of any length. */
  lemma {:induction false} PercentIsAnyText(pattern: string, text: string)
    ensures Like("%" + pattern, text) <==> exists k :: 0 <= k <= |text| && Like(pattern, text[k..])
  {
    assert ("%" + pattern)[1..] == pattern && text[0..] == text;
    if text != "" {
      PercentIsAnyText(pattern, text[1..]);
      if k :| 0 <= k <= |text[1..]| && Like(pattern, text[1..][k..]) { assert text[1..][k..] == text[k + 1..]; }
      if k :| 0 < k <= |text| && Like(pattern, text[k..]) { assert text[1..][k - 1..] == text[k..]; }
    }
  }

  /** An underscore stands for any one character. */
  lemma UnderscoreIsAnyCharacter(pattern: string, text: string)
    ensures Like("_" + pattern, text) <==> text != "" && Like(pattern, text[1..])
  {
    assert ("_" + pattern)[1..] == pattern;
  }

  // ---------- where LIKE is plain containment ----------

  predicate Plain(s: string) {
    forall i :: 0 <= i < |s| ==> s[i] != '%' && s[i] != '_'
  }

  predicate FoldsTo(s: string, t: string) {
    |s| == |t| && forall i :: 0 <= i < |s| ==> Fold(s[i]) == Fold(t[i])
  }

  predicate StartsAt(s: string, text: string, k: nat) {
    k + |s| <= |text| && FoldsTo(s, text[k..k + |s|])
  }

  /** s occurs in the text, ignoring ASCII case. */
  ghost predicate Occurs(s: string, text: string) {
    exists k :: 0 <= k <= |text| && StartsAt(s, text, k)
  }

  lemma {:induction false} LikePrefix(s: string, text: string)
    requires Plain(s)
    ensures Like(s + "%", text) <==> StartsAt(s, text, 0)
  {
    if s == "" {
      assert s + "%" == "%";
      PercentMatches(text);
    } else {
      assert (s + "%")[1..] == s[1..] + "%" && (s + "%")[0] == s[0];
      if text != "" {
        LikePrefix(s[1..], text[1..]);
        if StartsAt(s, text, 0) {
          assert text[1..][..|s| - 1] == text[..|s|][1..] && FoldsTo(s[1..], text[1..][..|s| - 1]);
        }
        if StartsAt(s[1..], text[1..], 0) && Fold(s[0]) == Fold(text[0]) {
          forall i | 0 <= i < |s| ensures Fold(s[i]) == Fold(text[..|s|][i]) {
            if i > 0 { assert s[1..][i - 1] == s[i] && text[1..][..|s| - 1][i - 1] == text[i]; }
          }
        }
      }
    }
  }

  /** For a number without wildcards the search asks whether "cheque" and the number occur in the text. */
  lemma {:induction false} LikeIsContainment(s: string, text: string)
    requires Plain(s)
    ensures Like("%" + (s + "%"), text) <==> Occurs(s, text)
  {
    LikePrefix(s, text);
    assert ("%" + (s + "%"))[1..] == s + "%";
    if text != "" {
      LikeIsContainment(s, text[1..]);
      if exists k :: 0 <= k <= |text[1..]| && StartsAt(s, text[1..], k) {
        var k :| 0 <= k <= |text[1..]| && StartsAt(s, text[1..], k);
        assert text[1..][k..k + |s|] == text[k + 1..k + 1 + |s|];
        assert StartsAt(s, text, k + 1);
      }
      if exists k :: 0 < k <= |text| && StartsAt(s, text, k) {
        var k :| 0 < k <= |text| && StartsAt(s, text, k);
        assert text[1..][k - 1..k - 1 + |s|] == text[k..k + |s|];
        assert StartsAt(s, text[1..], k - 1);
      }
    }
  }

  // ---------- exactly which deposits a number finds ----------

  /** What follows the number in the logged text. */
  function AfterNumber(drawerBank: string): string {
    (if drawerBank == "" then "" else ", " + drawerBank) + ")"
  }

  const LEAD: string := "Cheque deposit (cheque "

  lemma TextParts(earlier: string, drawerBank: string)
    ensures ChequeText(earlier, drawerBank) == LEAD + (earlier + AfterNumber(drawerBank))
  {
    assert "Cheque deposit (" + "cheque " == LEAD;
  }

  /** Where "cheque" and a digit can occur in the logged text: at the number itself or after it. */
  lemma StartsInLead(s: string, rest: string, k: nat)
    requires s != "" && AllDigits(s) && k < |LEAD| && StartsAt("cheque " + s, LEAD + rest, k)
    ensures k == |LEAD| - 7
  {
    var text, found := LEAD + rest, "cheque " + s;
    var part := text[k..k + |found|];
    assert Fold(found[0]) == Fold(part[0]) && part[0] == text[k];
    assert Fold(found[7]) == Fold(part[7]) && part[7] == text[k + 7] && found[7] == s[0];
    assert text[7] == LEAD[7] == 'd';
  }

  lemma StartsAtNumber(s: string, rest: string)
    ensures StartsAt("cheque " + s, LEAD + rest, |LEAD| - 7) <==> StartsAt(s, rest, 0)
  {
    var text, found, k := LEAD + rest, "cheque " + s, |LEAD| - 7;
    if |s| <= |rest| {
      assert text[k..k + |found|] == "cheque " + rest[..|s|];
      FoldsToAppend("cheque ", s, "cheque ", rest[..|s|]);
    }
  }

  lemma FoldsToAppend(x: string, s: string, y: string, t: string)
    requires |x| == |y| && FoldsTo(x, y)
    ensures FoldsTo(x + s, y + t) <==> FoldsTo(s, t)
  {
    if FoldsTo(x + s, y + t) {
      forall i | 0 <= i < |s| ensures Fold(s[i]) == Fold(t[i]) {
        assert (x + s)[|x| + i] == s[i] && (y + t)[|x| + i] == t[i];
      }
    }
  }

  /** A number of digits that starts the rest of the text starts the number there. */
  lemma DigitsStart(s: string, earlier: string, drawerBank: string)
    requires AllDigits(s)
    ensures StartsAt(s, earlier + AfterNumber(drawerBank), 0) <==> s <= earlier
  {
    var tail := AfterNumber(drawerBank);
    var rest := earlier + tail;
    if StartsAt(s, rest, 0) {
      assert rest[|earlier|] == tail[0];
      forall i | 0 <= i < |s| ensures rest[i] == s[i] { assert Fold(s[i]) == Fold(rest[..|s|][i]); }
    }
    if s <= earlier { assert rest[..|s|] == s; }
  }

  /** Exactly which deposits a number of digits finds: those of a number that begins with it, and those that mention it
      after "cheque" once more, in the number or in the name of the drawer's bank. */
  lemma NumberFindsIff(number: string, earlier: string, drawerBank: string)
    requires number != "" && AllDigits(number)
    ensures Like(ChequePattern(number), ChequeText(earlier, drawerBank))
       <==> number <= earlier || Occurs("cheque " + number, earlier + AfterNumber(drawerBank))
  {
    var found, rest := "cheque " + number, earlier + AfterNumber(drawerBank);
    var text := LEAD + rest;
    TextParts(earlier, drawerBank);
    LikeIsContainment(found, text);
    assert ChequePattern(number) == "%" + (found + "%");
    StartsAtNumber(number, rest);
    DigitsStart(number, earlier, drawerBank);
    if k :| 0 <= k <= |text| && StartsAt(found, text, k) {
      if k < |LEAD| { StartsInLead(number, rest, k); } else { Shifted(found, rest, k - |LEAD|); }
    }
    if k :| 0 <= k <= |rest| && StartsAt(found, rest, k) { Shifted(found, rest, k); }
  }

  lemma Shifted(s: string, rest: string, k: nat)
    requires k <= |rest|
    ensures StartsAt(s, LEAD + rest, |LEAD| + k) <==> StartsAt(s, rest, k)
  {
    if k + |s| <= |rest| { assert (LEAD + rest)[|LEAD| + k..|LEAD| + k + |s|] == rest[k..k + |s|]; }
  }

  predicate NoQ(s: string) {
    forall i :: 0 <= i < |s| ==> Fold(s[i]) != 'q'
  }

  /** With a number of digits and a bank without the letter q there is no second mention. */
  lemma NoSecondMention(number: string, earlier: string, drawerBank: string)
    requires AllDigits(earlier) && NoQ(drawerBank)
    ensures !Occurs("cheque " + number, earlier + AfterNumber(drawerBank))
  {
    var found, rest := "cheque " + number, earlier + AfterNumber(drawerBank);
    assert NoQ(rest) && found[3] == 'q';
    forall k | 0 <= k <= |rest| ensures !StartsAt(found, rest, k) {
      if k + |found| <= |rest| { assert Fold(rest[k..k + |found|][3]) != Fold(found[3]); }
    }
  }

  // ---------- over runs ----------

  /** The i-th operation of a run is a cheque deposit that was accepted. */
  predicate AcceptedCheque(b: Bank, ops: seq<Op>, i: nat)
    requires i < |ops| && FdsLinked(b.fds, |b.accounts|)
  {
    ops[i].Cheque? && Decide(Run(b, ops[..i]), ops[i]).Book?
  }

  predicate FoundAt(b: Bank, ops: seq<Op>, i: nat, number: string)
    requires i < |ops| && FdsLinked(b.fds, |b.accounts|)
  {
    AcceptedCheque(b, ops, i) && Like(ChequePattern(number), ChequeText(ops[i].number, ops[i].drawerBank))
  }

  /** A deposit accepted in the run that the search for a number finds. */
  ghost predicate FoundInRun(b: Bank, ops: seq<Op>, number: string)
    requires FdsLinked(b.fds, |b.accounts|)
  {
    exists i :: 0 <= i < |ops| && FoundAt(b, ops, i, number)
  }

  /** Rows other than those of cheque deposits change nothing for the search. */
  lemma SeenAppended(log: seq<Txn>, t: Txn, number: string)
    ensures ChequeSeen(log + [t], number)
       <==> ChequeSeen(log, number) || (t.kind == CHEQUE_DEPOSIT && Like(ChequePattern(number), t.description))
  {
    if ChequeSeen(log, number) {
      var i :| 0 <= i < |log| && log[i].kind == CHEQUE_DEPOSIT && Like(ChequePattern(number), log[i].description);
      assert (log + [t])[i] == log[i];
    }
    assert (log + [t])[|log|] == t;
  }

  lemma {:induction false} InterestSeesNothing(b: Bank, i: nat, branch: string, number: string)
    requires i <= |b.accounts|
    ensures ChequeSeen(InterestFrom(b, i, branch).log, number) <==> ChequeSeen(b.log, number)
    decreases |b.accounts| - i
  {
    if i < |b.accounts| {
      var d := DecideInterest(b, i, branch);
      if d.Book? { SeenAppended(b.log, Stamped(b.accounts, d.txn), number); }
      InterestSeesNothing(Apply(b, d), i + 1, branch, number);
    }
  }

  lemma {:induction false} MaturitySeesNothing(b: Bank, before: seq<Account>, i: nat, branch: string, today: int,
                                               reading: Reading, number: string)
    requires i <= |b.fds| && |before| == |b.accounts| && FdsLinked(b.fds, |b.accounts|)
    ensures ChequeSeen(MatureFrom(b, before, i, branch, today, reading).log, number) <==> ChequeSeen(b.log, number)
    decreases |b.fds| - i
  {
    if i < |b.fds| {
      var c := MatureIfDue(b, before, i, branch, today, reading);
      if Due(b.fds[i], branch, today) { SeenAppended(b.log, c.log[|b.log|], number); }
      MaturitySeesNothing(c, before, i + 1, branch, today, reading, number);
    }
  }

  lemma StepSees(b: Bank, op: Op, number: string)
    requires FdsLinked(b.fds, |b.accounts|)
    ensures ChequeSeen(Step(b, op).log, number)
       <==> ChequeSeen(b.log, number)
            || (op.Cheque? && Decide(b, op).Book? && Like(ChequePattern(number), ChequeText(op.number, op.drawerBank)))
  {
    if op.Eod? {
      var c := BeforeMaturity(b, op.branch, op.recent);
      InterestSeesNothing(b, 0, op.branch, number);
      MaturitySeesNothing(c, c.accounts, 0, op.branch, op.today, op.reading, number);
    } else if Decide(b, op).Book? {
      SeenAppended(b.log, Stamped(b.accounts, Decide(b, op).txn), number);
    }
  }

  lemma {:induction false} RunSees(b: Bank, ops: seq<Op>, number: string)
    requires FdsLinked(b.fds, |b.accounts|)
    ensures ChequeSeen(Run(b, ops).log, number) <==> ChequeSeen(b.log, number) || FoundInRun(b, ops, number)
  {
    if ops != [] {
      var n := |ops| - 1;
      RunSees(b, ops[..n], number);
      StepSees(Run(b, ops[..n]), ops[n], number);
      FoundInPrefix(b, ops, n, number);
    }
  }

  lemma FoundInPrefix(b: Bank, ops: seq<Op>, n: nat, number: string)
    requires |ops| == n + 1 && FdsLinked(b.fds, |b.accounts|)
    ensures FoundInRun(b, ops, number) <==> FoundInRun(b, ops[..n], number) || FoundAt(b, ops, n, number)
  {
    forall i | 0 <= i < n ensures FoundAt(b, ops, i, number) <==> FoundAt(b, ops[..n], i, number) {
      assert ops[..n][..i] == ops[..i];
    }
  }

  /** The guards before the search. */
  predicate GuardsPass(b: Bank, op: Op)
    requires op.Cheque?
  {
    op.amount > 0 && op.to < |b.accounts| && Owns(b.accounts[op.to], op.caller)
  }

  /** The cheques of a run have numbers of digits, or none, and banks without the letter q. */
  predicate PlainCheques(ops: seq<Op>) {
    forall i :: 0 <= i < |ops| && ops[i].Cheque? ==> AllDigits(ops[i].number) && NoQ(ops[i].drawerBank)
  }

  /** A cheque accepted in the run has a number that begins with this one. */
  ghost predicate Begins(b: Bank, ops: seq<Op>, number: string)
    requires FdsLinked(b.fds, |b.accounts|)
  {
    exists i :: 0 <= i < |ops| && AcceptedCheque(b, ops, i) && number <= ops[i].number
  }

  lemma FoundIff(b: Bank, ops: seq<Op>, number: string)
    requires FdsLinked(b.fds, |b.accounts|) && PlainCheques(ops) && number != "" && AllDigits(number)
    ensures FoundInRun(b, ops, number) <==> Begins(b, ops, number)
  {
    forall i | 0 <= i < |ops| && AcceptedCheque(b, ops, i)
      ensures FoundAt(b, ops, i, number) <==> number <= ops[i].number
    {
      NumberFindsIff(number, ops[i].number, ops[i].drawerBank);
      NoSecondMention(number, ops[i].number, ops[i].drawerBank);
    }
  }

  lemma RefusedIffSeen(b: Bank, op: Op)
    requires op.Cheque? && op.number != "" && GuardsPass(b, op)
    ensures Decide(b, op) == Refuse(409) <==> ChequeSeen(b.log, op.number)
    ensures Decide(b, op).Refuse? ==> Decide(b, op) == Refuse(409)
  {
  }

  /** After any run in which cheques are such, a deposit with a number of digits that passes the other guards is refused
      exactly when a cheque accepted in the run has a number that begins with it, or the log of before has one. */
  lemma ChequeRefusedIff(b: Bank, ops: seq<Op>, again: Op)
    requires FdsLinked(b.fds, |b.accounts|) && PlainCheques(ops)
    requires again.Cheque? && again.number != "" && AllDigits(again.number) && GuardsPass(Run(b, ops), again)
    ensures Decide(Run(b, ops), again) == Refuse(409)
       <==> ChequeSeen(b.log, again.number) || Begins(b, ops, again.number)
    ensures Decide(Run(b, ops), again).Refuse? ==> Decide(Run(b, ops), again) == Refuse(409)
  {
    RunSees(b, ops, again.number);
    FoundIff(b, ops, again.number);
    RefusedIffSeen(Run(b, ops), again);
  }

  /** The other exception: a cheque without a number, drawn on a bank called "cheque 77", takes the number 77. */
  lemma BankNamedLikeCheque(number: string)
    requires number != "" && AllDigits(number)
    ensures Like(ChequePattern(number), ChequeText("", "cheque " + number))
  {
    var found, rest := "cheque " + number, AfterNumber("cheque " + number);
    assert rest[2..2 + |found|] == found;
    assert StartsAt(found, rest, 2) && "" + rest == rest;
    NumberFindsIff(number, "", "cheque " + number);
  }
}
