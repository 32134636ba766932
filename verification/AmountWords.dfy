/** The amount-in-words parser of `cheque_ocr.py`. */
module AmountWords {
  import opened Options

  // ---------- words ----------

  /** How the parser's loop treats a word. */
  datatype Token = Filler | Unit(value: nat) | Hundred | Flush(scale: nat) | Unknown

  predicate IsFiller(w: string) {
    w == "rupees" || w == "rupee" || w == "only" || w == "and" || w == "rs" || w == "npr" || w == "inr"
  }

  function Ones(w: string): Option<nat> {
    if w == "zero" then Some(0) else if w == "one" then Some(1) else if w == "two" then Some(2)
    else if w == "three" then Some(3) else if w == "four" then Some(4) else if w == "five" then Some(5)
    else if w == "six" then Some(6) else if w == "seven" then Some(7) else if w == "eight" then Some(8)
    else if w == "nine" then Some(9) else if w == "ten" then Some(10) else if w == "eleven" then Some(11)
    else if w == "twelve" then Some(12) else if w == "thirteen" then Some(13) else if w == "fourteen" then Some(14)
    else if w == "fifteen" then Some(15) else if w == "sixteen" then Some(16) else if w == "seventeen" then Some(17)
    else if w == "eighteen" then Some(18) else if w == "nineteen" then Some(19) else if w == "twenty" then Some(20)
    else if w == "thirty" then Some(30) else if w == "forty" then Some(40) else if w == "fourty" then Some(40)
    else if w == "fifty" then Some(50) else if w == "sixty" then Some(60) else if w == "seventy" then Some(70)
    else if w == "eighty" then Some(80) else if w == "ninety" then Some(90) else None
  }

  function Scales(w: string): Option<nat> {
    if w == "hundred" then Some(100) else if w == "thousand" then Some(1000) else if w == "lakh" then Some(100_000)
    else if w == "lac" then Some(100_000) else if w == "lakhs" then Some(100_000)
    else if w == "million" then Some(1_000_000) else if w == "crore" then Some(10_000_000)
    else if w == "crores" then Some(10_000_000) else None
  }

  function Classify(w: string): Token {
    if IsFiller(w) then Filler
    else if Ones(w).Some? then Unit(Ones(w).value)
    else if w == "hundred" then Hundred
    else if Scales(w).Some? then Flush(Scales(w).value)
    else Unknown
  }

  function SmallWord(n: nat): string
    requires n < 20
  {
    ["zero", "one", "two", "three", "four", "five", "six", "seven", "eight", "nine", "ten", "eleven", "twelve",
     "thirteen", "fourteen", "fifteen", "sixteen", "seventeen", "eighteen", "nineteen"][n]
  }

  function TensWord(t: nat): string
    requires 2 <= t < 10
  {
    ["twenty", "thirty", "forty", "fifty", "sixty", "seventy", "eighty", "ninety"][t - 2]
  }

  lemma SmallWordIsUnit(n: nat)
    requires n < 20
    ensures Classify(SmallWord(n)) == Unit(n)
  {
    var w := SmallWord(n);
    assert w[0] == w[0] && w[1] == w[1] && w[2] == w[2];
    if |w| > 3 { assert w[3] == w[3]; }
    if |w| > 4 { assert w[4] == w[4]; }
  }

  lemma TensWordIsUnit(t: nat)
    requires 2 <= t < 10
    ensures Classify(TensWord(t)) == Unit(10 * t)
  {
    var w := TensWord(t);
    assert w[0] == w[0] && w[1] == w[1] && w[2] == w[2];
  }

  lemma HundredWord()
    ensures Classify("hundred") == Hundred
  {
    assert "hundred"[0] == 'h';
  }

  lemma ThousandWord()
    ensures Classify("thousand") == Flush(1000)
  {
    assert "thousand"[2] == 'o';
  }

  lemma LakhWord()
    ensures Classify("lakh") == Flush(100_000)
  {
    assert "lakh"[0] == 'l' && "lakh"[1] == 'a';
  }

  lemma CroreWord()
    ensures Classify("crore") == Flush(10_000_000)
  {
    assert "crore"[0] == 'c';
  }

  // ---------- the parser's loop ----------

  datatype State = State(total: nat, current: nat, seen: bool)

  const START := State(0, 0, false)

  function OneIfZero(n: nat): nat {
    if n == 0 then 1 else n
  }

  function Step(st: State, t: Token): State {
    match t
    case Unit(v) => st.(current := st.current + v, seen := true)
    case Hundred => st.(current := OneIfZero(st.current) * 100, seen := true)
    case Flush(s) => State(st.total + OneIfZero(st.current) * s, 0, true)
    case _ => st
  }

  function Run(st: State, ts: seq<Token>): State {
    if ts == [] then st else Step(Run(st, ts[..|ts| - 1]), ts[|ts| - 1])
  }

  function Outcome(st: State): Option<nat> {
    if st.seen then Some(st.total + st.current) else None
  }

  function ClassifyAll(ws: seq<string>): (ts: seq<Token>)
    ensures |ts| == |ws|
  {
    seq(|ws|, i requires 0 <= i < |ws| => Classify(ws[i]))
  }

  function Parse(ws: seq<string>): Option<nat> {
    Outcome(Run(START, ClassifyAll(ws)))
  }

  // ---------- splitting the text ----------

  predicate IsLetter(c: char) { 'a' <= c <= 'z' }

  /** Lower case, for ASCII. */
  function Lower(c: char): char {
    if 'A' <= c <= 'Z' then (c as int + 32) as char else c
  }

  function Finish(word: string): seq<string> {
    if word == "" then [] else [word]
  }

  /** The maximal runs of letters, the first of them continuing `word`. */
  function Split(text: string, word: string): seq<string> {
    if text == "" then Finish(word)
    else if IsLetter(Lower(text[0])) then Split(text[1..], word + [Lower(text[0])])
    else Finish(word) + Split(text[1..], "")
  }

  lemma RunPrefix(ts: seq<Token>, i: nat)
    requires i < |ts|
    ensures Run(START, ts[..i + 1]) == Step(Run(START, ts[..i]), ts[i])
  {
    assert ts[..i + 1][..i] == ts[..i];
  }

  method WordsToNumber(text: string) returns (r: Option<nat>)
    ensures r == Parse(Split(text, ""))
  {
    var words := Split(text, "");
    ghost var ts := ClassifyAll(words);
    assert ts[..0] == [];
    if words == [] { return None; }
    var total: nat, current: nat, seen := 0, 0, false;
    for i := 0 to |words|
      invariant State(total, current, seen) == Run(START, ts[..i])
    {
      var w := words[i];
      RunPrefix(ts, i);
      assert ts[i] == Classify(w);
      if IsFiller(w) { continue; }
      if Ones(w).Some? {
        current := current + Ones(w).value;
        seen := true;
      } else if w == "hundred" {
        current := OneIfZero(current) * 100;
        seen := true;
      } else if Scales(w).Some? {
        total := total + OneIfZero(current) * Scales(w).value;
        current := 0;
        seen := true;
      }
    }
    assert ts[..|words|] == ts;
    if !seen { return None; }
    r := Some(total + current);
  }

  lemma {:induction false} RunAppend(st: State, xs: seq<Token>, ys: seq<Token>)
    ensures Run(st, xs + ys) == Run(Run(st, xs), ys)
  {
    if ys == [] {
      assert xs + ys == xs;
    } else {
      assert (xs + ys)[..|xs + ys| - 1] == xs + ys[..|ys| - 1];
      RunAppend(st, xs, ys[..|ys| - 1]);
    }
  }

  lemma RunThree(st: State, a: seq<Token>, b: seq<Token>, c: seq<Token>, s1: State, s2: State, s3: State)
    requires Run(st, a) == s1 && Run(s1, b) == s2 && Run(s2, c) == s3
    ensures Run(st, a + b + c) == s3
  {
    RunAppend(st, a + b, c);
    RunAppend(st, a, b);
  }

  // ---------- words that do not matter ----------

  predicate Matters(t: Token) { !t.Filler? && !t.Unknown? }

  function Significant(ts: seq<Token>): seq<Token> {
    if ts == [] then []
    else Significant(ts[..|ts| - 1]) + (if Matters(ts[|ts| - 1]) then [ts[|ts| - 1]] else [])
  }

  /** Fillers and unknown words, wherever they stand, change nothing. */
  lemma {:induction false} OnlySignificantWordsCount(st: State, ts: seq<Token>)
    ensures Run(st, Significant(ts)) == Run(st, ts)
  {
    if ts != [] {
      OnlySignificantWordsCount(st, ts[..|ts| - 1]);
      RunAppend(st, Significant(ts[..|ts| - 1]), [ts[|ts| - 1]]);
      RunOne(Run(st, ts[..|ts| - 1]), ts[|ts| - 1]);
      assert Significant(ts[..|ts| - 1]) + [] == Significant(ts[..|ts| - 1]);
    }
  }

  lemma RunOne(st: State, t: Token)
    ensures Run(st, [t]) == Step(st, t)
  {
    assert [t][..0] == [];
  }

  /** The parser answers exactly when some word matters. */
  lemma {:induction false} AnswersIff(ts: seq<Token>)
    ensures Outcome(Run(START, ts)).Some? <==> exists i :: 0 <= i < |ts| && Matters(ts[i])
  {
    if ts != [] {
      var rest := ts[..|ts| - 1];
      AnswersIff(rest);
      if exists i :: 0 <= i < |rest| && Matters(rest[i]) {
        var i :| 0 <= i < |rest| && Matters(rest[i]);
        assert Matters(ts[i]);
      }
      if exists i :: 0 <= i < |ts| && Matters(ts[i]) {
        var i :| 0 <= i < |ts| && Matters(ts[i]);
        if i < |rest| { assert Matters(rest[i]); }
      }
    }
  }

  // ---------- groups and blocks ----------

  function BelowHundred(n: nat): seq<Token>
    requires n < 100
  {
    if n < 20 then [Unit(n)] else if n % 10 == 0 then [Unit(n)] else [Unit(n - n % 10), Unit(n % 10)]
  }

  /** The words of a number below one thousand. */
  function Group(n: nat): seq<Token>
    requires n < 1000
  {
    if n < 100 then BelowHundred(n)
    else [Unit(n / 100), Hundred] + (if n % 100 == 0 then [] else BelowHundred(n % 100))
  }

  lemma RunTwo(st: State, t: Token, u: Token)
    ensures Run(st, [t, u]) == Step(Step(st, t), u)
  {
    RunAppend(st, [t], [u]);
    RunOne(st, t);
    RunOne(Step(st, t), u);
    assert [t] + [u] == [t, u];
  }

  lemma BelowHundredRun(st: State, n: nat)
    requires n < 100
    ensures Run(st, BelowHundred(n)) == State(st.total, st.current + n, true)
  {
    if n < 20 || n % 10 == 0 { RunOne(st, Unit(n)); } else { RunTwo(st, Unit(n - n % 10), Unit(n % 10)); }
  }

  lemma GroupRun(total: nat, seen: bool, n: nat)
    requires n < 1000
    ensures Run(State(total, 0, seen), Group(n)) == State(total, n, true)
  {
    var st := State(total, 0, seen);
    if n < 100 {
      BelowHundredRun(st, n);
    } else {
      var head := [Unit(n / 100), Hundred];
      RunTwo(st, Unit(n / 100), Hundred);
      if n % 100 == 0 {
        assert head + [] == head;
      } else {
        RunAppend(st, head, BelowHundred(n % 100));
        BelowHundredRun(State(total, n / 100 * 100, true), n % 100);
      }
    }
  }

  /** A group below one thousand followed by a scale word. */
  datatype Block = Block(group: nat, scale: nat)

  function BlockWords(b: Block): seq<Token>
    requires b.group < 1000
  {
    Group(b.group) + [Flush(b.scale)]
  }

  function BlockTokens(bs: seq<Block>): seq<Token>
    requires forall b :: b in bs ==> b.group < 1000
  {
    if bs == [] then [] else BlockTokens(bs[..|bs| - 1]) + BlockWords(bs[|bs| - 1])
  }

  function Weight(b: Block): nat {
    b.group * b.scale
  }

  function ZeroScale(b: Block): nat {
    if b.group == 0 then b.scale else 0
  }

  function BlockSum(bs: seq<Block>): nat {
    if bs == [] then 0 else BlockSum(bs[..|bs| - 1]) + Weight(bs[|bs| - 1])
  }

  /** The scales that follow a zero group. */
  function ZeroScales(bs: seq<Block>): nat {
    if bs == [] then 0
    else ZeroScales(bs[..|bs| - 1]) + ZeroScale(bs[|bs| - 1])
  }

  lemma OneBlock(total: nat, seen: bool, b: Block)
    requires b.group < 1000
    ensures Run(State(total, 0, seen), BlockWords(b))
         == State(total + Weight(b) + ZeroScale(b), 0, true)
  {
    RunAppend(State(total, 0, seen), Group(b.group), [Flush(b.scale)]);
    GroupRun(total, seen, b.group);
    RunOne(State(total, b.group, true), Flush(b.scale));
  }

  lemma AppendBlock(head: seq<Token>, total: nat, seen: bool, b: Block)
    requires b.group < 1000 && Run(START, head) == State(total, 0, seen)
    ensures Run(START, head + BlockWords(b)) == State(total + Weight(b) + ZeroScale(b), 0, true)
  {
    RunAppend(START, head, BlockWords(b));
    OneBlock(total, seen, b);
  }

  /** Blocks in any order parse to their weighted sum, except that "zero" before a scale counts as one. */
  lemma {:induction false} BlocksParse(bs: seq<Block>)
    requires forall b :: b in bs ==> b.group < 1000
    ensures Run(START, BlockTokens(bs)) == State(BlockSum(bs) + ZeroScales(bs), 0, bs != [])
  {
    if bs != [] {
      var front, last := bs[..|bs| - 1], bs[|bs| - 1];
      BlocksParse(front);
      AppendBlock(BlockTokens(front), BlockSum(front) + ZeroScales(front), front != [], last);
    }
  }

  lemma {:induction false} ZeroScalesIff(bs: seq<Block>)
    requires forall b :: b in bs ==> b.scale > 0
    ensures ZeroScales(bs) == 0 <==> forall b :: b in bs ==> b.group > 0
  {
    if bs != [] {
      var front, last := bs[..|bs| - 1], bs[|bs| - 1];
      ZeroScalesIff(front);
      assert bs == front + [last];
    }
  }

  /** So the parse is the weighted sum exactly when no group is zero. */
  lemma BlocksParseIff(bs: seq<Block>)
    requires bs != [] && forall b :: b in bs ==> b.group < 1000 && b.scale > 0
    ensures Outcome(Run(START, BlockTokens(bs))) == Some(BlockSum(bs)) <==> forall b :: b in bs ==> b.group > 0
  {
    BlocksParse(bs);
    ZeroScalesIff(bs);
  }

  // ---------- the canonical rendering ----------

  function BlockOrNothing(group: nat, scale: nat): seq<Token>
    requires group < 1000
  {
    if group == 0 then [] else BlockWords(Block(group, scale))
  }

  function GroupOrNothing(n: nat): seq<Token>
    requires n < 1000
  {
    if n == 0 then [] else Group(n)
  }

  function TailOf(lakhs: nat, thousands: nat, rest: nat): seq<Token>
    requires lakhs < 1000 && thousands < 1000 && rest < 1000
  {
    BlockOrNothing(lakhs, 100_000) + BlockOrNothing(thousands, 1000) + GroupOrNothing(rest)
  }

  /** Everything below one crore. */
  function Tail(n: nat): seq<Token>
    requires n < 10_000_000
  {
    TailOf(n / 100_000, n / 1000 % 100, n % 1000)
  }

  /** The words of a positive number; the crores are themselves written out in words. */
  function Positive(n: nat): seq<Token>
    requires n > 0
  {
    if n < 10_000_000 then Tail(n) else Positive(n / 10_000_000) + [Flush(10_000_000)] + Tail(n % 10_000_000)
  }

  function Numerals(n: nat): seq<Token> {
    if n == 0 then [Unit(0)] else Positive(n)
  }

  lemma BlockOrNothingRun(total: nat, seen: bool, group: nat, scale: nat)
    requires group < 1000
    ensures Run(State(total, 0, seen), BlockOrNothing(group, scale))
       == State(total + group * scale, 0, seen || group > 0)
  {
    if group > 0 { OneBlock(total, seen, Block(group, scale)); }
  }

  lemma GroupOrNothingRun(total: nat, seen: bool, n: nat)
    requires n < 1000
    ensures Run(State(total, 0, seen), GroupOrNothing(n)) == State(total, n, seen || n > 0)
  {
    if n > 0 { GroupRun(total, seen, n); }
  }

  lemma TailOfRun(total: nat, seen: bool, lakhs: nat, thousands: nat, rest: nat, before: nat, t: nat)
    requires lakhs < 1000 && thousands < 1000 && rest < 1000
    requires before == total + lakhs * 100_000 && t == before + thousands * 1000
    ensures Run(State(total, 0, seen), TailOf(lakhs, thousands, rest))
         == State(t, rest, seen || lakhs > 0 || thousands > 0 || rest > 0)
  {
    var st := State(total, 0, seen);
    var seen1 := seen || lakhs > 0;
    var seen2 := seen1 || thousands > 0;
    BlockOrNothingRun(total, seen, lakhs, 100_000);
    BlockOrNothingRun(before, seen1, thousands, 1000);
    GroupOrNothingRun(t, seen2, rest);
    RunThree(st, BlockOrNothing(lakhs, 100_000), BlockOrNothing(thousands, 1000), GroupOrNothing(rest),
             State(before, 0, seen1), State(t, 0, seen2), State(t, rest, seen2 || rest > 0));
  }

  lemma Digits(n: nat)
    ensures n / 100_000 * 100_000 + n / 1000 % 100 * 1000 + n % 1000 == n
  {
    var q := n / 1000;
    assert n == 1000 * q + n % 1000 && n / 100_000 == q / 100;
  }

  lemma TailRun(total: nat, seen: bool, n: nat)
    requires n < 10_000_000
    ensures Run(State(total, 0, seen), Tail(n)) == State(total + (n - n % 1000), n % 1000, seen || n > 0)
  {
    Digits(n);
    var before := total + n / 100_000 * 100_000;
    TailOfRun(total, seen, n / 100_000, n / 1000 % 100, n % 1000, before, before + n / 1000 % 100 * 1000);
  }

  /** Below ten thousand million the parser is exact; from there on it falls short, because a scale word multiplies
      only the group in front of it. */
  predicate ReadAs(st: State, n: nat) {
    && st.seen && (n < 1000 ==> st.total == 0) && (n >= 1000 ==> st.total >= 1000)
    && (n < 10_000_000_000 ==> st.total + st.current == n)
    && (n >= 10_000_000_000 ==> st.total + st.current < n)
  }

  lemma CroreArithmetic(n: nat, c: nat, m: nat, st: State, total: nat, high: nat, low: nat)
    requires c > 0 && high + low == m < 10_000_000 && n == c * 10_000_000 + m && ReadAs(st, c)
    requires total == st.total + OneIfZero(st.current) * 10_000_000
    ensures ReadAs(State(total + high, low, true), n)
  {
  }

  lemma CroreRun(head: seq<Token>, st: State, total: nat, m: nat, low: nat, high: nat)
    requires m < 10_000_000 && low == m % 1000 && high == m - low
    requires st == Run(START, head) && total == st.total + OneIfZero(st.current) * 10_000_000
    ensures Run(START, head + [Flush(10_000_000)] + Tail(m)) == State(total + high, low, true)
  {
    RunOne(st, Flush(10_000_000));
    TailRun(total, true, m);
    RunThree(START, head, [Flush(10_000_000)], Tail(m), st, State(total, 0, true), State(total + high, low, true));
  }

  lemma CroreStep(n: nat, head: seq<Token>, c: nat, m: nat)
    requires c > 0 && m < 10_000_000 && n == c * 10_000_000 + m && ReadAs(Run(START, head), c)
    ensures ReadAs(Run(START, head + [Flush(10_000_000)] + Tail(m)), n)
  {
    var st, low := Run(START, head), m % 1000;
    var total := st.total + OneIfZero(st.current) * 10_000_000;
    var high := m - low;
    CroreRun(head, st, total, m, low, high);
    CroreArithmetic(n, c, m, st, total, high, low);
  }

  lemma {:induction false} BelowCrore(n: nat)
    requires 0 < n < 10_000_000
    ensures ReadAs(Run(START, Tail(n)), n)
  {
    TailRun(0, false, n);
    ReadDirectly(n, n % 1000);
  }

  lemma ReadDirectly(n: nat, group: nat)
    requires 0 < n < 10_000_000 && group < 1000 && (if n < 1000 then group == n else n - group >= 1000)
    ensures ReadAs(State(n - group, group, true), n)
  {
  }

  lemma PositiveUnfolds(n: nat, c: nat, m: nat)
    requires n >= 10_000_000 && c == n / 10_000_000 && m == n % 10_000_000
    ensures c > 0 && n == c * 10_000_000 + m && Positive(n) == Positive(c) + [Flush(10_000_000)] + Tail(m)
  {
  }

  lemma {:induction false} PositiveRun(n: nat)
    requires n > 0
    ensures ReadAs(Run(START, Positive(n)), n)
  {
    if n < 10_000_000 {
      BelowCrore(n);
    } else {
      var c, m := n / 10_000_000, n % 10_000_000;
      PositiveUnfolds(n, c, m);
      PositiveRun(c);
      CroreStep(n, Positive(c), c, m);
    }
  }

  /** Parsing the canonical rendering of a number gives the number back exactly below ten thousand million. */
  lemma NumeralsRoundTripIff(n: nat)
    ensures Outcome(Run(START, Numerals(n))) == Some(n) <==> n < 10_000_000_000
  {
    if n == 0 { RunOne(START, Unit(0)); } else { PositiveRun(n); }
  }

  // ---------- back to text ----------

  /** The tokens that the canonical rendering uses. */
  predicate Spellable(t: Token) {
    match t
    case Unit(v) => v < 20 || (v < 100 && v % 10 == 0)
    case Hundred => true
    case Flush(s) => s == 1000 || s == 100_000 || s == 10_000_000
    case _ => false
  }

  function Spell(t: Token): string
    requires Spellable(t)
  {
    match t
    case Unit(v) => if v < 20 then SmallWord(v) else TensWord(v / 10)
    case Hundred => "hundred"
    case Flush(s) => if s == 1000 then "thousand" else if s == 100_000 then "lakh" else "crore"
  }

  lemma SpellIsRead(t: Token)
    requires Spellable(t)
    ensures Classify(Spell(t)) == t
  {
    match t
    case Unit(v) => if v < 20 { SmallWordIsUnit(v); } else { TensWordIsUnit(v / 10); }
    case Hundred => HundredWord();
    case Flush(s) =>
      if s == 1000 { ThousandWord(); } else if s == 100_000 { LakhWord(); } else { CroreWord(); }
  }

  predicate AllSpellable(ts: seq<Token>) { forall i :: 0 <= i < |ts| ==> Spellable(ts[i]) }

  lemma GroupSpellable(n: nat)
    requires n < 1000
    ensures AllSpellable(Group(n))
  {
    if n >= 100 && n % 100 > 0 { BelowHundredSpellable(n % 100); } else if n < 100 { BelowHundredSpellable(n); }
  }

  lemma BelowHundredSpellable(n: nat)
    requires n < 100
    ensures AllSpellable(BelowHundred(n))
  {
  }

  lemma AppendSpellable(xs: seq<Token>, ys: seq<Token>)
    requires AllSpellable(xs) && AllSpellable(ys)
    ensures AllSpellable(xs + ys)
  {
  }

  lemma BlockSpellable(group: nat, scale: nat)
    requires group < 1000 && Spellable(Flush(scale))
    ensures AllSpellable(BlockOrNothing(group, scale))
  {
    GroupSpellable(group);
    AppendSpellable(Group(group), [Flush(scale)]);
  }

  lemma TailOfSpellable(lakhs: nat, thousands: nat, rest: nat)
    requires lakhs < 1000 && thousands < 1000 && rest < 1000
    ensures AllSpellable(TailOf(lakhs, thousands, rest))
  {
    var a, b := BlockOrNothing(lakhs, 100_000), BlockOrNothing(thousands, 1000);
    BlockSpellable(lakhs, 100_000);
    BlockSpellable(thousands, 1000);
    AppendSpellable(a, b);
    GroupSpellable(rest);
    AppendSpellable(a + b, GroupOrNothing(rest));
  }

  lemma {:induction false} PositiveSpellable(n: nat)
    requires n > 0
    ensures AllSpellable(Positive(n))
  {
    if n < 10_000_000 {
      TailOfSpellable(n / 100_000, n / 1000 % 100, n % 1000);
    } else {
      var c, m := n / 10_000_000, n % 10_000_000;
      PositiveSpellable(c);
      TailOfSpellable(m / 100_000, m / 1000 % 100, m % 1000);
      AppendSpellable(Positive(c), [Flush(10_000_000)]);
      AppendSpellable(Positive(c) + [Flush(10_000_000)], Tail(m));
    }
  }

  lemma NumeralsSpellable(n: nat)
    ensures AllSpellable(Numerals(n))
  {
    if n > 0 { PositiveSpellable(n); }
  }

  function Words(n: nat): (ws: seq<string>)
    ensures |ws| == |Numerals(n)|
  {
    NumeralsSpellable(n);
    var ts := Numerals(n);
    seq(|ts|, i requires 0 <= i < |ts| => Spell(ts[i]))
  }

  lemma WordsAreRead(n: nat)
    ensures ClassifyAll(Words(n)) == Numerals(n)
  {
    NumeralsSpellable(n);
    forall i | 0 <= i < |Numerals(n)| ensures Classify(Words(n)[i]) == Numerals(n)[i] {
      SpellIsRead(Numerals(n)[i]);
    }
  }

  /** A written word, in any case, and what separates it from the next. */
  datatype Piece = Piece(word: string, gap: string)

  predicate Letters(w: string) { forall i :: 0 <= i < |w| ==> IsLetter(Lower(w[i])) }

  predicate NoLetters(g: string) { forall i :: 0 <= i < |g| ==> !IsLetter(Lower(g[i])) }

  /** Only the last word may end the text. */
  predicate WellSpaced(ps: seq<Piece>) {
    forall i :: 0 <= i < |ps| ==> IsPiece(ps[i]) && (ps[i].gap == "" ==> i == |ps| - 1)
  }

  predicate IsPiece(p: Piece) { p.word != "" && Letters(p.word) && NoLetters(p.gap) }

  function Written(ps: seq<Piece>): string {
    if ps == [] then "" else ps[0].word + ps[0].gap + Written(ps[1..])
  }

  function LowerAll(w: string): (r: string)
    ensures |r| == |w|
  {
    seq(|w|, i requires 0 <= i < |w| => Lower(w[i]))
  }

  function WordsOf(ps: seq<Piece>): (ws: seq<string>)
    ensures |ws| == |ps|
  {
    seq(|ps|, i requires 0 <= i < |ps| => LowerAll(ps[i].word))
  }

  lemma {:induction false} SplitWord(w: string, rest: string, acc: string)
    requires Letters(w)
    ensures Split(w + rest, acc) == Split(rest, acc + LowerAll(w))
  {
    if w == "" {
      assert w + rest == rest && acc + LowerAll(w) == acc;
    } else {
      assert (w + rest)[1..] == w[1..] + rest && (w + rest)[0] == w[0];
      SplitWord(w[1..], rest, acc + [Lower(w[0])]);
      assert acc + [Lower(w[0])] + LowerAll(w[1..]) == acc + LowerAll(w);
    }
  }

  lemma {:induction false} SplitGap(g: string, rest: string, acc: string)
    requires NoLetters(g) && (g != "" || acc == "")
    ensures Split(g + rest, acc) == Finish(acc) + Split(rest, "")
  {
    if g == "" {
      assert g + rest == rest;
    } else {
      assert (g + rest)[1..] == g[1..] + rest && (g + rest)[0] == g[0];
      SplitGap(g[1..], rest, "");
    }
  }

  lemma {:induction false} SplitPiece(p: Piece, rest: string)
    requires IsPiece(p) && (p.gap == "" ==> rest == "")
    ensures Split(p.word + (p.gap + rest), "") == [LowerAll(p.word)] + Split(rest, "")
  {
    SplitWord(p.word, p.gap + rest, "");
    var w := LowerAll(p.word);
    assert "" + w == w;
    if p.gap == "" { assert p.gap + rest == ""; } else { SplitGap(p.gap, rest, w); }
  }

  /** Splitting recovers the words, whatever separates them and whatever their case. */
  lemma {:induction false} SplitWritten(lead: string, ps: seq<Piece>)
    requires NoLetters(lead) && WellSpaced(ps)
    ensures Split(lead + Written(ps), "") == WordsOf(ps)
    decreases |ps|
  {
    SplitGap(lead, Written(ps), "");
    if ps != [] {
      var p, rest := ps[0], Written(ps[1..]);
      assert IsPiece(p) && WellSpaced(ps[1..]);
      assert Written(ps) == p.word + (p.gap + rest);
      SplitPiece(p, rest);
      SplitWritten("", ps[1..]);
      assert "" + rest == rest;
      assert WordsOf(ps) == [LowerAll(p.word)] + WordsOf(ps[1..]);
    }
  }

  /** An amount written out in words, in any case and spacing and with any filler or unknown words in between, is read
      back exactly when it is below ten thousand million. */
  lemma AmountRoundTripIff(n: nat, lead: string, ps: seq<Piece>)
    requires NoLetters(lead) && WellSpaced(ps)
    requires Significant(ClassifyAll(WordsOf(ps))) == Significant(ClassifyAll(Words(n)))
    ensures Parse(Split(lead + Written(ps), "")) == Some(n) <==> n < 10_000_000_000
  {
    SplitWritten(lead, ps);
    OnlySignificantWordsCount(START, ClassifyAll(WordsOf(ps)));
    OnlySignificantWordsCount(START, ClassifyAll(Words(n)));
    WordsAreRead(n);
    NumeralsRoundTripIff(n);
  }
}
