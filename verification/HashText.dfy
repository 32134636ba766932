/** Texts that are hashed: separator-joined fields, decimal numbers, and what it means for a hash function not to
    collide on the texts at hand. SHA-256 (section 6.2 of FIPS 180-4) itself stays uninterpreted: it is a parameter of
    which only the form of its digests is used. */
module HashText {
  import opened RealArithmetic

  type HashFunction = string -> string

  predicate IsHex(c: char) {
    '0' <= c <= '9' || 'a' <= c <= 'f'
  }

  predicate IsDigest(s: string) {
    |s| == 64 && forall i :: 0 <= i < |s| ==> IsHex(s[i])
  }

  /** Every output is 64 hexadecimal characters. */
  ghost predicate GivesDigests(H: HashFunction) {
    forall s :: IsDigest(H(s))
  }

  /** No two of these texts have the same hash. No function is free of collisions on all texts, so the hypothesis is
      always about the finitely many texts that were hashed. */
  ghost predicate InjectiveOn(H: HashFunction, texts: set<string>) {
    forall x, y :: x in texts && y in texts && H(x) == H(y) ==> x == y
  }

  function Zeros(n: nat): (s: string)
    ensures |s| == n && forall i :: 0 <= i < n ==> s[i] == '0'
  {
    seq(n, i => '0')
  }

  /** Nor does any of them hash to 64 zeros, which stand for "nothing". */
  ghost predicate BindsTexts(H: HashFunction, texts: set<string>) {
    InjectiveOn(H, texts) && forall x :: x in texts ==> H(x) != Zeros(64)
  }

  predicate Free(c: char, s: string) {
    forall i :: 0 <= i < |s| ==> s[i] != c
  }

  predicate AllFree(c: char, fields: seq<string>) {
    forall i :: 0 <= i < |fields| ==> Free(c, fields[i])
  }

  /** The fields with the separator between them. */
  function Join(sep: char, fields: seq<string>): string
    requires fields != []
  {
    if |fields| == 1 then fields[0] else fields[0] + [sep] + Join(sep, fields[1..])
  }

  lemma FiveFields(sep: char, a: string, b: string, c: string, d: string, e: string)
    ensures Join(sep, [a, b, c, d, e]) == a + [sep] + (b + [sep] + (c + [sep] + (d + [sep] + e)))
  {
    assert [a, b, c, d, e][1..] == [b, c, d, e] && [b, c, d, e][1..] == [c, d, e];
    assert [c, d, e][1..] == [d, e] && [d, e][1..] == [e];
    assert Join(sep, [d, e]) == d + [sep] + Join(sep, [e]);
    assert Join(sep, [c, d, e]) == c + [sep] + Join(sep, [d, e]);
    assert Join(sep, [b, c, d, e]) == b + [sep] + Join(sep, [c, d, e]);
    assert Join(sep, [a, b, c, d, e]) == a + [sep] + Join(sep, [b, c, d, e]);
  }

  lemma Flat(sep: char, a: string, b: string, c: string, d: string, e: string)
    ensures a + [sep] + (b + [sep] + (c + [sep] + (d + [sep] + e)))
         == a + [sep] + b + [sep] + c + [sep] + d + [sep] + e
  {
  }

  function Occurrences(c: char, s: string): nat {
    if s == "" then 0 else Occurrences(c, s[..|s| - 1]) + if s[|s| - 1] == c then 1 else 0
  }

  lemma {:induction false} FreeIff(c: char, s: string)
    ensures Occurrences(c, s) == 0 <==> Free(c, s)
  {
    if s != "" { FreeIff(c, s[..|s| - 1]); }
  }

  lemma {:induction false} OccurrencesAdd(c: char, s: string, t: string)
    ensures Occurrences(c, s + t) == Occurrences(c, s) + Occurrences(c, t)
  {
    if t == "" {
      assert s + t == s;
    } else {
      assert (s + t)[..|s + t| - 1] == s + t[..|t| - 1];
      OccurrencesAdd(c, s, t[..|t| - 1]);
    }
  }

  /** A joined text holds at least the separators between its fields, and no more exactly when no field holds one. */
  lemma {:induction false} JoinOccurrences(sep: char, fields: seq<string>)
    requires fields != []
    ensures Occurrences(sep, Join(sep, fields)) >= |fields| - 1
    ensures Occurrences(sep, Join(sep, fields)) == |fields| - 1 <==> AllFree(sep, fields)
  {
    FreeIff(sep, fields[0]);
    if |fields| > 1 {
      var rest := fields[1..];
      JoinOccurrences(sep, rest);
      OccurrencesAdd(sep, fields[0] + [sep], Join(sep, rest));
      OccurrencesAdd(sep, fields[0], [sep]);
      assert [sep][..0] == "" && Occurrences(sep, [sep]) == 1;
      assert AllFree(sep, fields) <==> Free(sep, fields[0]) && AllFree(sep, rest) by {
        assert fields == [fields[0]] + rest;
      }
    }
  }

  lemma SplitAtSeparator(sep: char, a: string, x: string, b: string, y: string)
    requires Free(sep, a) && Free(sep, b) && a + [sep] + x == b + [sep] + y
    ensures a == b && x == y
  {
    var s, t := a + [sep] + x, b + [sep] + y;
    assert s[|a|] == sep && t[|b|] == sep;
    assert a == s[..|a|] && b == t[..|b|];
    assert x == s[|a| + 1..] && y == t[|b| + 1..];
  }

  lemma {:induction false} FreeJoinInjective(sep: char, fs: seq<string>, gs: seq<string>)
    requires |fs| == |gs| > 0 && AllFree(sep, fs) && AllFree(sep, gs)
    requires Join(sep, fs) == Join(sep, gs)
    ensures fs == gs
  {
    if |fs| > 1 {
      SplitAtSeparator(sep, fs[0], Join(sep, fs[1..]), gs[0], Join(sep, gs[1..]));
      FreeJoinInjective(sep, fs[1..], gs[1..]);
      assert fs == [fs[0]] + fs[1..] && gs == [gs[0]] + gs[1..];
    }
  }

  /** Joining separator-free fields loses nothing: no other list of as many fields, whatever they contain, joins to the
      same text. */
  lemma JoinInjective(sep: char, fs: seq<string>, gs: seq<string>)
    requires |fs| == |gs| > 0 && AllFree(sep, fs)
    requires Join(sep, fs) == Join(sep, gs)
    ensures fs == gs
  {
    JoinOccurrences(sep, fs);
    JoinOccurrences(sep, gs);
    FreeJoinInjective(sep, fs, gs);
  }

  /** Equal hashes of joined fields mean equal fields, if one side is free of separators. */
  lemma EqualHashes(H: HashFunction, texts: set<string>, sep: char, fs: seq<string>, gs: seq<string>)
    requires |fs| == |gs| > 0 && AllFree(sep, fs)
    requires InjectiveOn(H, texts) && Join(sep, fs) in texts && Join(sep, gs) in texts
    requires H(Join(sep, fs)) == H(Join(sep, gs))
    ensures fs == gs
  {
    JoinInjective(sep, fs, gs);
  }

  /** The position of a separator in a text that has one. */
  function FirstOf(c: char, s: string): (k: nat)
    requires !Free(c, s)
    ensures k < |s| && s[k] == c
  {
    if s[0] == c then 0 else 1 + FirstOf(c, s[1..])
  }

  // ---------- decimal numbers ----------

  function Digit(d: nat): (c: char)
    requires d < 10
    ensures '0' <= c <= '9'
  {
    '0' + d as char
  }

  function Digits(n: nat): (s: string)
    ensures |s| > 0 && forall i :: 0 <= i < |s| ==> '0' <= s[i] <= '9'
  {
    if n < 10 then [Digit(n)] else Digits(n / 10) + [Digit(n % 10)]
  }

  lemma {:induction false} DigitsInjective(m: nat, n: nat)
    requires Digits(m) == Digits(n)
    ensures m == n
    decreases m + n
  {
    var s, t := Digits(m), Digits(n);
    if m >= 10 || n >= 10 {
      assert |s| == |t| > 1;
      assert s[..|s| - 1] == Digits(m / 10) && t[..|t| - 1] == Digits(n / 10);
      assert s[|s| - 1] == Digit(m % 10) && t[|t| - 1] == Digit(n % 10);
      DigitsInjective(m / 10, n / 10);
    }
  }

  predicate AllDigits(s: string) {
    forall i :: 0 <= i < |s| ==> '0' <= s[i] <= '9'
  }

  /** What a text of digits stands for. */
  function Value(s: string): nat
    requires AllDigits(s)
  {
    if s == "" then 0 else 10 * Value(s[..|s| - 1]) + (s[|s| - 1] - '0') as nat
  }

  /** The digits of a number stand for it, and do not begin with a zero unless it is zero. */
  lemma {:induction false} DigitsRead(n: nat)
    ensures Value(Digits(n)) == n && (Digits(n)[0] == '0' <==> n == 0)
  {
    if n >= 10 {
      DigitsRead(n / 10);
      assert Digits(n)[..|Digits(n)| - 1] == Digits(n / 10);
    } else {
      assert Digits(n)[..0] == "";
    }
  }

  /** Go's %d. */
  function Decimal(n: int): (s: string)
    ensures Free('|', s)
  {
    if n < 0 then "-" + Digits(-n) else Digits(n)
  }

  lemma DecimalInjective(m: int, n: int)
    requires Decimal(m) == Decimal(n)
    ensures m == n
  {
    assert m < 0 <==> Decimal(m)[0] == '-';
    if m < 0 {
      assert Decimal(m)[1..] == Digits(-m) && Decimal(n)[1..] == Digits(-n);
      DigitsInjective(-m, -n);
    } else {
      DigitsInjective(m, n);
    }
  }

  /** Go's %.2f for an amount of whole paisa. */
  function FixedTwo(paisa: int): (s: string)
    ensures |s| >= 4 && Free(':', s)
  {
    var p := AbsInt(paisa);
    (if paisa < 0 then "-" else "") + Digits(p / 100) + ['.', Digit(p % 100 / 10), Digit(p % 10)]
  }

  /** The rendering of an amount reads as it: a sign, the rupees, a point and two digits of paisa. */
  lemma FixedTwoReads(paisa: int) returns (rupees: string, rest: string)
    ensures FixedTwo(paisa) == (if paisa < 0 then "-" else "") + rupees + "." + rest
    ensures AllDigits(rupees) && AllDigits(rest) && rupees != "" && |rest| == 2
    ensures 100 * Value(rupees) + Value(rest) == AbsInt(paisa)
  {
    var p := AbsInt(paisa);
    rupees, rest := Digits(p / 100), [Digit(p % 100 / 10), Digit(p % 10)];
    TwoDigitsRead(p % 100 / 10, p % 10);
    DigitsRead(p / 100);
    LastTwoDigits(p);
  }

  lemma TwoDigitsRead(tens: nat, units: nat)
    requires tens < 10 && units < 10
    ensures Value([Digit(tens), Digit(units)]) == 10 * tens + units
  {
    var x, y := Digit(tens), Digit(units);
    assert [x, y][..1] == [x] && [x][..0] == "";
    assert Value([x]) == tens;
  }

  lemma FixedTwoInjective(m: int, n: int)
    requires FixedTwo(m) == FixedTwo(n)
    ensures m == n
  {
    var s, k := FixedTwo(m), |FixedTwo(m)|;
    assert m < 0 <==> s[0] == '-';
    assert n < 0 <==> s[0] == '-';
    var whole := if m < 0 then s[1..k - 3] else s[..k - 3];
    assert whole == Digits(AbsInt(m) / 100) && whole == Digits(AbsInt(n) / 100);
    DigitsInjective(AbsInt(m) / 100, AbsInt(n) / 100);
    assert s[k - 2] == Digit(AbsInt(m) % 100 / 10) == Digit(AbsInt(n) % 100 / 10);
    assert s[k - 1] == Digit(AbsInt(m) % 10) == Digit(AbsInt(n) % 10);
    LastTwoDigits(AbsInt(m));
    LastTwoDigits(AbsInt(n));
  }

  lemma LastTwoDigits(p: nat)
    ensures p == 100 * (p / 100) + 10 * (p % 100 / 10) + p % 10
  {
    LastDigit(p, p / 100, p % 100);
  }

  lemma LastDigit(p: nat, h: nat, q: nat)
    requires p == 100 * h + q && q < 100
    ensures p % 10 == q % 10 && q == 10 * (q / 10) + q % 10
  {
    RemainderOfTen(p, 10 * h + q / 10, q % 10);
  }

  lemma RemainderOfTen(p: nat, k: nat, d: nat)
    requires p == 10 * k + d && d < 10
    ensures p % 10 == d
  {
  }
}
