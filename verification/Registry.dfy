/** The round, registry and rollback state of `hq_server.py`: submissions, aggregation rounds, rollbacks and restarts as
    steps, and what every run of them keeps. The outcome of the averaging and of the fairness check are inputs of a
    round; times and events are left out. */
module Registry {
  import opened Dictionaries
  import opened Options
  import opened RealArithmetic

  /** An accepted submission; serial is its position among all submissions ever accepted. */
  datatype Submission = Submission(serial: nat, f1: real)

  /** The submissions by branch. */
  type Pending = Dictionary<Submission>

  datatype Record = Record(version: nat, weights: string, branches: Pending)

  datatype Config = Config(minNodes: int, delta: real)

  /** The server's memory, and the registry files, which outlive it. */
  datatype Server = Server(round: nat, active: nat, pending: Pending, model: Option<Record>, files: map<nat, Record>,
                           accepted: nat)

  datatype Event =
    | Accept(branch: string, f1: real)
    | Aggregate(outcome: Option<string>, unfair: bool)
    | Rollback(target: nat)
    | Restart

  const START := Server(0, 0, [], None, map[], 0)

  // ---------- the champion / challenger gate ----------

  function NonZeroSum(d: Pending): real {
    if d == [] then 0.0 else d[0].1.f1 + NonZeroSum(d[1..])
  }

  function NonZeroCount(d: Pending): nat {
    if d == [] then 0 else (if d[0].1.f1 != 0.0 then 1 else 0) + NonZeroCount(d[1..])
  }

  /** The mean of the non-zero F1 scores, if there is any. */
  function MeanF1(d: Pending): Option<real> {
    if NonZeroCount(d) == 0 then None else Some(NonZeroSum(d) / NonZeroCount(d) as real)
  }

  function ModelF1(m: Option<Record>): Option<real> {
    if m.None? then None else MeanF1(m.value.branches)
  }

  predicate Regresses(champion: Option<real>, challenger: Option<real>, delta: real) {
    champion.Some? && challenger.Some? && challenger.value < champion.value - delta
  }

  // ---------- steps and runs ----------

  predicate Promotes(cfg: Config, s: Server, outcome: Option<string>, unfair: bool) {
    && |s.pending| >= cfg.minNodes && s.pending != [] && outcome.Some? && !unfair
    && !Regresses(ModelF1(s.model), MeanF1(s.pending), cfg.delta)
  }

  function Promoted(s: Server, weights: string): Server {
    var record := Record(s.round + 1, weights, s.pending);
    Server(s.round + 1, s.round + 1, [], Some(record), s.files[s.round + 1 := record], s.accepted)
  }

  /** Too few submissions or a failed averaging leave everything as it is; averaging nothing fails. */
  function AggregateStep(cfg: Config, s: Server, outcome: Option<string>, unfair: bool): Server {
    if |s.pending| < cfg.minNodes || s.pending == [] || outcome.None? then s
    else if unfair || Regresses(ModelF1(s.model), MeanF1(s.pending), cfg.delta) then s.(pending := [])
    else Promoted(s, outcome.value)
  }

  function Step(cfg: Config, s: Server, e: Event): Server {
    match e
    case Accept(branch, f1) =>
      s.(pending := Put(s.pending, branch, Submission(s.accepted, f1)), accepted := s.accepted + 1)
    case Aggregate(outcome, unfair) => AggregateStep(cfg, s, outcome, unfair)
    case Rollback(target) =>
      if target in s.files then s.(active := target, model := Some(s.files[target])) else s
    case Restart => Server(0, 0, [], None, s.files, s.accepted)
  }

  function Run(cfg: Config, s: Server, events: seq<Event>): Server {
    if events == [] then s else Step(cfg, Run(cfg, s, events[..|events| - 1]), events[|events| - 1])
  }

  lemma {:induction false} RunAppend(cfg: Config, s: Server, xs: seq<Event>, ys: seq<Event>)
    ensures Run(cfg, s, xs + ys) == Run(cfg, Run(cfg, s, xs), ys)
  {
    if ys == [] {
      assert xs + ys == xs;
    } else {
      assert (xs + ys)[..|xs + ys| - 1] == xs + ys[..|ys| - 1];
      RunAppend(cfg, s, xs, ys[..|ys| - 1]);
    }
  }

  // ---------- what every run keeps ----------

  lemma {:induction false} PutEntries(d: Pending, branch: string, s: Submission)
    ensures forall e :: e in Put(d, branch, s) ==> e in d || e == (branch, s)
    ensures (branch, s) in Put(d, branch, s)
  {
    if d != [] && d[0].0 != branch { PutEntries(d[1..], branch, s); }
  }

  function Serials(d: Pending): set<nat> {
    set e | e in d :: e.1.serial
  }

  /** Versions have no gaps, are those written since the last restart and older ones, and name themselves. */
  ghost predicate VersionsOk(s: Server) {
    && (forall v :: v in s.files ==> v >= 1 && (v > 1 ==> v - 1 in s.files))
    && (forall v :: 1 <= v <= s.round ==> v in s.files)
    && (forall v :: v in s.files ==> s.files[v].version == v && s.files[v].branches != [])
  }

  /** The served model is the registry entry of the active version. */
  ghost predicate ServedOk(s: Server) {
    && (s.model.None? <==> s.active == 0)
    && (s.model.Some? ==> s.active in s.files && s.model.value == s.files[s.active])
  }

  /** No accepted submission is in two versions, or in a version and pending. */
  ghost predicate UsedOnce(s: Server) {
    && (forall v, w :: v in s.files && w in s.files && v != w ==>
        Serials(s.files[v].branches) !! Serials(s.files[w].branches))
    && (forall v :: v in s.files ==> Serials(s.files[v].branches) !! Serials(s.pending))
    && (forall v, n :: v in s.files && n in Serials(s.files[v].branches) ==> n < s.accepted)
    && (forall n :: n in Serials(s.pending) ==> n < s.accepted)
  }

  /** At least one branch, and at least as many as are configured, each of them once. */
  predicate Quorum(cfg: Config, d: Pending) {
    |d| >= 1 && |d| >= cfg.minNodes && DistinctKeys(d)
  }

  /** Every stored version was promoted from a quorum of branches, and a branch has at most one pending submission. */
  ghost predicate QuorumOk(cfg: Config, s: Server) {
    DistinctKeys(s.pending) && forall v :: v in s.files ==> Quorum(cfg, s.files[v].branches)
  }

  ghost predicate ServerOk(cfg: Config, s: Server) {
    VersionsOk(s) && ServedOk(s) && UsedOnce(s) && QuorumOk(cfg, s)
  }

  lemma PromoteStep(cfg: Config, s: Server, weights: string)
    requires ServerOk(cfg, s) && Quorum(cfg, s.pending)
    ensures ServerOk(cfg, Promoted(s, weights))
  {
    var p := Promoted(s, weights);
    forall v, w | v in p.files && w in p.files && v != w
      ensures Serials(p.files[v].branches) !! Serials(p.files[w].branches)
    {
    }
    assert Serials(p.pending) == {};
  }

  lemma StepKeeps(cfg: Config, s: Server, e: Event)
    requires ServerOk(cfg, s)
    ensures ServerOk(cfg, Step(cfg, s, e))
  {
    match e
    case Accept(branch, f1) =>
      PutEntries(s.pending, branch, Submission(s.accepted, f1));
      PutKeepsKeys(s.pending, branch, Submission(s.accepted, f1));
      assert Serials(Step(cfg, s, e).pending) <= Serials(s.pending) + {s.accepted};
    case Aggregate(outcome, unfair) =>
      assert Serials([]) == {};
      if Promotes(cfg, s, outcome, unfair) { PromoteStep(cfg, s, outcome.value); }
    case Rollback(target) =>
    case Restart =>
      assert Serials([]) == {};
  }

  /** Over every run of submissions, rounds, rollbacks and restarts: versions without gaps, the served model is the
      entry of the active version, and no submission enters two promoted models. */
  lemma {:induction false} RunKeeps(cfg: Config, events: seq<Event>)
    ensures ServerOk(cfg, Run(cfg, START, events))
  {
    if events != [] {
      RunKeeps(cfg, events[..|events| - 1]);
      StepKeeps(cfg, Run(cfg, START, events[..|events| - 1]), events[|events| - 1]);
    } else {
      assert Serials([]) == {};
    }
  }

  /** In every reachable state, an entry that two versions share by serial is in one version only and not pending. */
  lemma SubmissionsUsedOnce(cfg: Config, events: seq<Event>, v: nat, w: nat, e: (string, Submission),
                            f: (string, Submission))
    requires var s := Run(cfg, START, events);
             v in s.files && w in s.files && e in s.files[v].branches && f in s.files[w].branches
             && e.1.serial == f.1.serial
    ensures v == w && e !in Run(cfg, START, events).pending
  {
    var s := Run(cfg, START, events);
    RunKeeps(cfg, events);
    assert e.1.serial in Serials(s.files[v].branches) && f.1.serial in Serials(s.files[w].branches);
    assert e in s.pending ==> e.1.serial in Serials(s.pending);
  }

  // ---------- quorum and provenance ----------

  /** In every reachable state each stored version was promoted from at least the configured number of different
      branches, and at least one. */
  lemma VersionsHaveQuorum(cfg: Config, events: seq<Event>, v: nat)
    requires v in Run(cfg, START, events).files
    ensures var branches := Run(cfg, START, events).files[v].branches;
            |branches| >= 1 && |branches| >= cfg.minNodes
            && forall i, j :: 0 <= i < j < |branches| ==> branches[i].0 != branches[j].0
  {
    RunKeeps(cfg, events);
  }

  /** These submissions were all made in the run. */
  predicate Submitted(d: Pending, events: seq<Event>) {
    forall e :: e in d ==> Accept(e.0, e.1.f1) in events
  }

  /** Whatever is pending, and whatever a stored version was promoted from, was submitted by that branch in the run. */
  lemma {:induction false} NothingInvented(cfg: Config, events: seq<Event>)
    ensures Submitted(Run(cfg, START, events).pending, events)
    ensures forall v :: v in Run(cfg, START, events).files ==>
        Submitted(Run(cfg, START, events).files[v].branches, events)
  {
    if events != [] {
      var n := |events| - 1;
      var s := Run(cfg, START, events[..n]);
      NothingInvented(cfg, events[..n]);
      assert forall e :: e in events[..n] ==> e in events;
      if events[n].Accept? { PutEntries(s.pending, events[n].branch, Submission(s.accepted, events[n].f1)); }
    }
  }

  /** What a round does, for every state. Below the quorum, and when averaging fails, nothing changes at all. Otherwise
      all submissions are used up; an unfair model, and one whose score falls by more than the allowance when both
      models are scored, is dropped, and any other becomes the next version, served and stored with exactly those
      submissions. */
  lemma RoundMeans(cfg: Config, s: Server, outcome: Option<string>, unfair: bool)
    ensures var t := Step(cfg, s, Aggregate(outcome, unfair));
            var champion := if s.model.Some? then MeanF1(s.model.value.branches) else None;
            var challenger := MeanF1(s.pending);
            if |s.pending| < 1 || |s.pending| < cfg.minNodes || outcome.None? then t == s
            else if unfair || (champion.Some? && challenger.Some? && champion.value - challenger.value > cfg.delta) then
              t == s.(pending := [])
            else
              var record := Record(s.round + 1, outcome.value, s.pending);
              && t.files == s.files[s.round + 1 := record] && t.model == Some(record)
              && t.round == t.active == s.round + 1 && t.pending == [] && t.accepted == s.accepted
  {
  }

  /** The scores that count: those that are not zero. */
  function NonZero(d: Pending): seq<real> {
    if d == [] then [] else (if d[0].1.f1 != 0.0 then [d[0].1.f1] else []) + NonZero(d[1..])
  }

  function SumUp(xs: seq<real>): real {
    if xs == [] then 0.0 else xs[0] + SumUp(xs[1..])
  }

  lemma {:induction false} NonZeroSums(d: Pending)
    ensures NonZeroSum(d) == SumUp(NonZero(d)) && NonZeroCount(d) == |NonZero(d)|
  {
    if d != [] {
      NonZeroSums(d[1..]);
      if d[0].1.f1 != 0.0 { assert NonZero(d)[1..] == NonZero(d[1..]); } else { assert NonZero(d) == NonZero(d[1..]); }
    }
  }

  /** A model's score is the mean of the scores that are not zero; a submission without a score neither raises nor
      lowers it. */
  lemma MeanOfNonZero(d: Pending)
    ensures MeanF1(d) == if NonZero(d) == [] then None else Some(SumUp(NonZero(d)) / |NonZero(d)| as real)
  {
    NonZeroSums(d);
  }

  /** A submission replaces the branch's pending one and touches nothing else. */
  lemma AcceptMeans(cfg: Config, s: Server, branch: string, f1: real)
    requires DistinctKeys(s.pending)
    ensures var t := Step(cfg, s, Accept(branch, f1));
            && t == s.(pending := t.pending, accepted := s.accepted + 1) && DistinctKeys(t.pending)
            && forall e :: e in t.pending <==>
                 e == (branch, Submission(s.accepted, f1)) || (e in s.pending && e.0 != branch)
  {
    PutReplaces(s.pending, branch, Submission(s.accepted, f1));
    PutKeepsKeys(s.pending, branch, Submission(s.accepted, f1));
  }

  // ---------- restarts ----------

  predicate NoRestart(events: seq<Event>) {
    forall i :: 0 <= i < |events| ==> !events[i].Restart?
  }

  /** How many rounds of a run promote. */
  function Promotions(cfg: Config, s: Server, events: seq<Event>): nat {
    if events == [] then 0
    else
      var before, last := events[..|events| - 1], events[|events| - 1];
      Promotions(cfg, s, before)
      + if last.Aggregate? && Promotes(cfg, Run(cfg, s, before), last.outcome, last.unfair) then 1 else 0
  }

  /** Entries accepted since a certain number of submissions had been accepted. */
  predicate Recent(d: Pending, since: nat) {
    forall n :: n in Serials(d) ==> n >= since
  }

  /** The state of a server restarted over these files, after k promotions. */
  ghost predicate Session(s: Server, files: map<nat, Record>, since: nat, k: nat) {
    && s.round == k && s.accepted >= since && Recent(s.pending, since)
    && (forall v :: v in s.files <==> v in files || 1 <= v <= k)
    && (forall v :: v in files && v > k ==> s.files[v] == files[v])
    && (forall v :: 1 <= v <= k ==> s.files[v].branches != [] && Recent(s.files[v].branches, since))
  }

  lemma SessionStep(cfg: Config, s: Server, e: Event, files: map<nat, Record>, since: nat, k: nat)
    requires Session(s, files, since, k) && !e.Restart?
    ensures var more := if e.Aggregate? && Promotes(cfg, s, e.outcome, e.unfair) then 1 else 0;
            Session(Step(cfg, s, e), files, since, k + more)
  {
    assert Serials([]) == {};
    if e.Accept? {
      PutEntries(s.pending, e.branch, Submission(s.accepted, e.f1));
      assert Serials(Step(cfg, s, e).pending) <= Serials(s.pending) + {s.accepted};
    }
  }

  lemma {:induction false} SessionRun(cfg: Config, past: Server, events: seq<Event>)
    requires NoRestart(events)
    ensures var s := Step(cfg, past, Restart);
            Session(Run(cfg, s, events), past.files, past.accepted, Promotions(cfg, s, events))
  {
    var s := Step(cfg, past, Restart);
    if events == [] {
      assert Serials([]) == {};
    } else {
      var before := events[..|events| - 1];
      SessionRun(cfg, past, before);
      var k := Promotions(cfg, s, before);
      SessionStep(cfg, Run(cfg, s, before), events[|events| - 1], past.files, past.accepted, k);
    }
  }

  /** In every run from a restart to the next, k promotions overwrite exactly the stored versions 1..k and add the
      missing ones; so every stored version survives if and only if nothing was promoted or nothing was stored. */
  lemma RestartOverwrites(cfg: Config, earlier: seq<Event>, later: seq<Event>, past: Server, s: Server, k: nat)
    requires past == Run(cfg, START, earlier) && NoRestart(later)
    requires s == Run(cfg, Step(cfg, past, Restart), later) && k == Promotions(cfg, Step(cfg, past, Restart), later)
    ensures s.round == k && forall v :: v in s.files <==> v in past.files || 1 <= v <= k
    ensures forall v :: v in past.files ==> (s.files[v] == past.files[v] <==> v > k)
    ensures (forall v :: v in past.files ==> s.files[v] == past.files[v]) <==> k == 0 || past.files == map[]
  {
    RunKeeps(cfg, earlier);
    SessionRun(cfg, past, later);
    forall v | v in past.files && v <= k ensures s.files[v] != past.files[v] {
      var e := past.files[v].branches[0];
      assert e.1.serial in Serials(past.files[v].branches);
    }
    if past.files != map[] {
      var v :| v in past.files;
      FirstVersion(past, v);
    }
  }

  lemma {:induction false} FirstVersion(s: Server, v: nat)
    requires VersionsOk(s) && v in s.files
    ensures v >= 1 && 1 in s.files
    decreases v
  {
    if v > 1 { FirstVersion(s, v - 1); }
  }

  /** A rollback succeeds exactly for the versions stored before the last restart and those promoted since; until then
      nothing is served. */
  lemma RollbackIff(cfg: Config, earlier: seq<Event>, later: seq<Event>, s: Server, target: nat)
    requires NoRestart(later) && s == Run(cfg, Step(cfg, Run(cfg, START, earlier), Restart), later)
    ensures target in s.files <==> target in Run(cfg, START, earlier).files || 1 <= target <= s.round
    ensures Step(cfg, s, Rollback(target))
         == if target in s.files then s.(active := target, model := Some(s.files[target])) else s
  {
    SessionRun(cfg, Run(cfg, START, earlier), later);
  }

  /** Without a restart the versions are exactly 1..round. */
  lemma VersionsWithoutRestart(cfg: Config, events: seq<Event>, v: nat)
    requires NoRestart(events)
    ensures v in Run(cfg, START, events).files <==> 1 <= v <= Run(cfg, START, events).round
  {
    SessionRun(cfg, START, events);
    assert Step(cfg, START, Restart) == START;
  }

  // ---------- stored versions keep their records ----------

  /** In a state t reached from s without a restart: version v of s still has its record unless a promotion since then
      was numbered v; in that case its submissions are others. */
  ghost predicate KeptUnlessRewritten(s: Server, t: Server, v: nat)
    requires v in s.files
  {
    && t.round >= s.round && t.accepted >= s.accepted && v in t.files
    && Serials(t.pending) !! Serials(s.files[v].branches)
    && if v <= s.round || v > t.round then t.files[v] == s.files[v]
       else t.files[v].branches != [] && Serials(t.files[v].branches) !! Serials(s.files[v].branches)
  }

  lemma KeptStep(cfg: Config, s: Server, t: Server, e: Event, v: nat)
    requires v in s.files && KeptUnlessRewritten(s, t, v) && !e.Restart?
    requires forall n :: n in Serials(s.files[v].branches) ==> n < s.accepted
    ensures KeptUnlessRewritten(s, Step(cfg, t, e), v)
  {
    assert Serials([]) == {};
    if e.Accept? {
      PutEntries(t.pending, e.branch, Submission(t.accepted, e.f1));
      assert Serials(Step(cfg, t, e).pending) <= Serials(t.pending) + {t.accepted};
    }
  }

  lemma {:induction false} KeptRun(cfg: Config, s: Server, later: seq<Event>, v: nat)
    requires v in s.files && UsedOnce(s) && NoRestart(later)
    ensures KeptUnlessRewritten(s, Run(cfg, s, later), v)
  {
    if later != [] {
      KeptRun(cfg, s, later[..|later| - 1], v);
      KeptStep(cfg, s, Run(cfg, s, later[..|later| - 1]), later[|later| - 1], v);
    }
  }

  /** From any reachable state s to the next restart, a stored version keeps its record exactly when it was written
      since the last restart or the versions promoted in between do not reach it. So without restarts no version is ever
      overwritten. */
  lemma NeverOverwritten(cfg: Config, earlier: seq<Event>, later: seq<Event>, s: Server, t: Server, v: nat)
    requires s == Run(cfg, START, earlier) && t == Run(cfg, START, earlier + later) && NoRestart(later) && v in s.files
    ensures v in t.files && (t.files[v] == s.files[v] <==> v <= s.round || v > t.round)
    ensures NoRestart(earlier) ==> t.files[v] == s.files[v]
  {
    RunKeeps(cfg, earlier);
    RunAppend(cfg, START, earlier, later);
    KeptRun(cfg, s, later, v);
    if s.round < v <= t.round {
      var e := s.files[v].branches[0];
      assert e.1.serial in Serials(s.files[v].branches);
    }
    if NoRestart(earlier) { VersionsWithoutRestart(cfg, earlier, v); }
  }

  // ---------- the F1 scores of consecutive promotions ----------

  /** The F1 scores of the served models, from the last rollback or restart on. */
  function Scores(cfg: Config, events: seq<Event>): seq<Option<real>> {
    if events == [] then []
    else
      var before, last := events[..|events| - 1], events[|events| - 1];
      var s, h := Run(cfg, START, before), Scores(cfg, before);
      match last
      case Accept(_, _) => h
      case Aggregate(outcome, unfair) => if Promotes(cfg, s, outcome, unfair) then h + [MeanF1(s.pending)] else h
      case Rollback(target) => if target in s.files then [MeanF1(s.files[target].branches)] else h
      case Restart => []
  }

  /** No step may regress, but a step from or to a model without any non-zero F1 is not compared. */
  predicate Gated(history: seq<Option<real>>, delta: real) {
    forall i :: 0 < i < |history| ==> !Regresses(history[i - 1], history[i], delta)
  }

  predicate AllScored(history: seq<Option<real>>) {
    forall i :: 0 <= i < |history| ==> history[i].Some?
  }

  lemma {:induction false} ScoresGated(cfg: Config, events: seq<Event>)
    ensures Gated(Scores(cfg, events), cfg.delta)
    ensures var h, s := Scores(cfg, events), Run(cfg, START, events);
            if h == [] then s.model.None? else s.model.Some? && h[|h| - 1] == ModelF1(s.model)
  {
    if events != [] { ScoresGated(cfg, events[..|events| - 1]); }
  }

  /** k gated promotions of scored models lower the mean F1 by at most k times delta. */
  lemma {:induction false} GatedDecline(history: seq<Option<real>>, delta: real)
    requires history != [] && Gated(history, delta) && AllScored(history)
    ensures history[|history| - 1].value >= history[0].value - Times((|history| - 1) as real, delta)
  {
    var n := |history| - 1;
    if n > 0 {
      GatedDecline(history[..n], delta);
      assert !Regresses(history[n - 1], history[n], delta);
      OneMoreStep((n - 1) as real, delta);
    }
  }

  lemma OneMoreStep(k: real, delta: real)
    ensures Times(k + 1.0, delta) == Times(k, delta) + delta
  {
  }

  /** In every reachable state whose promotions since the last rollback or restart were all scored, the served model's
      mean F1 is at most (number of those promotions) times delta below where it started. */
  lemma ServedF1Declines(cfg: Config, events: seq<Event>)
    requires Scores(cfg, events) != [] && AllScored(Scores(cfg, events))
    ensures var h, f1 := Scores(cfg, events), ModelF1(Run(cfg, START, events).model);
            f1.Some? && f1.value >= h[0].value - Times((|h| - 1) as real, cfg.delta)
  {
    ScoresGated(cfg, events);
    GatedDecline(Scores(cfg, events), cfg.delta);
  }

  // ---------- exactly when the bound is guaranteed ----------

  /** Every submitted F1 lies between 0 and cap. */
  predicate SubmitsWithin(events: seq<Event>, cap: real) {
    forall i :: 0 <= i < |events| && events[i].Accept? ==> 0.0 <= events[i].f1 <= cap
  }

  predicate HasPattern(history: seq<Option<real>>, scored: seq<bool>) {
    |history| == |scored| && forall i :: 0 <= i < |history| ==> (history[i].Some? <==> scored[i])
  }

  predicate Bounded(history: seq<Option<real>>, delta: real)
    requires history != [] && history[0].Some? && history[|history| - 1].Some?
  {
    history[|history| - 1].value >= history[0].value - Times((|history| - 1) as real, delta)
  }

  /** Every run that serves models with this pattern of scored and unscored ones obeys the bound. */
  ghost predicate DeclineBounded(cfg: Config, scored: seq<bool>, cap: real)
    requires scored != [] && scored[0] && scored[|scored| - 1]
  {
    forall events :: SubmitsWithin(events, cap) && HasPattern(Scores(cfg, events), scored) ==>
      Bounded(Scores(cfg, events), cfg.delta)
  }

  predicate F1Within(d: Pending, cap: real) {
    forall e :: e in d ==> 0.0 <= e.1.f1 <= cap
  }

  ghost predicate ServerWithin(s: Server, cap: real) {
    F1Within(s.pending, cap) && forall v :: v in s.files ==> F1Within(s.files[v].branches, cap)
  }

  predicate ScoresWithin(history: seq<Option<real>>, cap: real) {
    forall i :: 0 <= i < |history| && history[i].Some? ==> 0.0 < history[i].value <= cap
  }

  lemma {:induction false} SumWithin(d: Pending, cap: real)
    requires F1Within(d, cap)
    ensures 0.0 <= NonZeroSum(d) <= Times(NonZeroCount(d) as real, cap)
    ensures NonZeroCount(d) > 0 ==> NonZeroSum(d) > 0.0
  {
    if d != [] {
      assert d[0] in d;
      SumWithin(d[1..], cap);
      OneMoreStep(NonZeroCount(d[1..]) as real, cap);
    }
  }

  lemma MeanWithin(d: Pending, cap: real)
    requires F1Within(d, cap) && MeanF1(d).Some?
    ensures 0.0 < MeanF1(d).value <= cap
  {
    SumWithin(d, cap);
    QuotientWithin(NonZeroSum(d), NonZeroCount(d) as real, cap);
  }

  lemma QuotientWithin(sum: real, n: real, cap: real)
    requires n > 0.0 && 0.0 < sum <= Times(n, cap)
    ensures 0.0 < sum / n <= cap
  {
    var q := sum / n;
    assert n * q == sum;
    CancelScale(n, q, cap);
    CancelScale(n, 0.0, q);
  }

  lemma {:induction false} RunWithin(cfg: Config, events: seq<Event>, cap: real)
    requires SubmitsWithin(events, cap)
    ensures ServerWithin(Run(cfg, START, events), cap) && ScoresWithin(Scores(cfg, events), cap)
  {
    if events != [] {
      var before, last := events[..|events| - 1], events[|events| - 1];
      var s := Run(cfg, START, before);
      RunWithin(cfg, before, cap);
      match last
      case Accept(branch, f1) => PutEntries(s.pending, branch, Submission(s.accepted, f1));
      case Aggregate(outcome, unfair) =>
        if Promotes(cfg, s, outcome, unfair) && MeanF1(s.pending).Some? { MeanWithin(s.pending, cap); }
      case Rollback(target) =>
        if target in s.files && MeanF1(s.files[target].branches).Some? { MeanWithin(s.files[target].branches, cap); }
      case Restart =>
    }
  }

  // ---------- runs that produce a given history ----------

  /** m branches submit the same F1. */
  function Submissions(m: nat, f1: real): seq<Event> {
    if m == 0 then [] else Submissions(m - 1, f1) + [Accept(Name(m - 1), f1)]
  }

  /** They do so and a round follows, for each score in turn. */
  function Play(m: nat, values: seq<real>): seq<Event> {
    if values == [] then []
    else Play(m, values[..|values| - 1]) + Submissions(m, values[|values| - 1]) + [Aggregate(Some("weights"), false)]
  }

  function ScoreOf(f1: real): Option<real> {
    if f1 == 0.0 then None else Some(f1)
  }

  function ScoresOf(values: seq<real>): (h: seq<Option<real>>)
    ensures |h| == |values|
  {
    seq(|values|, i requires 0 <= i < |values| => ScoreOf(values[i]))
  }

  /** m pending submissions from the first m names, all with this F1. */
  predicate Uniform(d: Pending, m: nat, f1: real) {
    |d| == m && forall i :: 0 <= i < m ==> d[i].0 == Name(i) && d[i].1.f1 == f1
  }

  lemma NameIsFresh(d: Pending, m: nat, f1: real)
    requires Uniform(d, m, f1)
    ensures forall e :: e in d ==> e.0 != Name(m)
  {
    forall e | e in d ensures e.0 != Name(m) {
      var i :| 0 <= i < |d| && d[i] == e;
      assert |e.0| == i + 1;
    }
  }

  lemma AcceptOne(cfg: Config, s: Server, m: nat, next: nat, f1: real)
    requires next == m + 1 && Uniform(s.pending, m, f1)
    ensures Uniform(Step(cfg, s, Accept(Name(m), f1)).pending, next, f1)
  {
    NameIsFresh(s.pending, m, f1);
    PutFresh(s.pending, Name(m), Submission(s.accepted, f1));
  }

  lemma {:induction false} SubmissionsRun(cfg: Config, s: Server, m: nat, f1: real)
    requires s.pending == []
    ensures var after := Run(cfg, s, Submissions(m, f1)); Uniform(after.pending, m, f1) && after.model == s.model
  {
    if m > 0 {
      var before := Run(cfg, s, Submissions(m - 1, f1));
      SubmissionsRun(cfg, s, m - 1, f1);
      AcceptOne(cfg, before, m - 1, m, f1);
      RunSnoc(cfg, s, Submissions(m - 1, f1), Accept(Name(m - 1), f1));
    }
  }

  lemma RunSnoc(cfg: Config, s: Server, events: seq<Event>, e: Event)
    ensures Run(cfg, s, events + [e]) == Step(cfg, Run(cfg, s, events), e)
  {
    assert (events + [e])[..|events|] == events;
  }

  lemma ScoresSnoc(cfg: Config, events: seq<Event>, e: Event)
    requires e.Accept? || (e.Aggregate? && Promotes(cfg, Run(cfg, START, events), e.outcome, e.unfair))
    ensures Scores(cfg, events + [e])
         == Scores(cfg, events) + if e.Accept? then [] else [MeanF1(Run(cfg, START, events).pending)]
  {
    assert (events + [e])[..|events|] == events;
    assert Scores(cfg, events) + [] == Scores(cfg, events);
  }

  lemma {:induction false} SubmissionsScores(cfg: Config, events: seq<Event>, m: nat, f1: real)
    ensures Scores(cfg, events + Submissions(m, f1)) == Scores(cfg, events)
  {
    if m == 0 {
      assert events + [] == events;
    } else {
      var e := Accept(Name(m - 1), f1);
      SubmissionsScores(cfg, events, m - 1, f1);
      ScoresSnoc(cfg, events + Submissions(m - 1, f1), e);
      assert events + Submissions(m, f1) == events + Submissions(m - 1, f1) + [e];
    }
  }

  /** Submissions of one score and a round that the gate lets pass. */
  lemma PlayRound(cfg: Config, events: seq<Event>, m: nat, f1: real)
    requires m > 0 && m >= cfg.minNodes && Run(cfg, START, events).pending == []
    requires !Regresses(ModelF1(Run(cfg, START, events).model), ScoreOf(f1), cfg.delta)
    ensures var after := events + Submissions(m, f1) + [Aggregate(Some("weights"), false)];
            Scores(cfg, after) == Scores(cfg, events) + [ScoreOf(f1)] && Run(cfg, START, after).pending == []
  {
    var all := events + Submissions(m, f1);
    RunAppend(cfg, START, events, Submissions(m, f1));
    SubmissionsRun(cfg, Run(cfg, START, events), m, f1);
    SubmissionsScores(cfg, events, m, f1);
    UniformMean(Run(cfg, START, all).pending, m, f1);
    RunSnoc(cfg, START, all, Aggregate(Some("weights"), false));
    ScoresSnoc(cfg, all, Aggregate(Some("weights"), false));
  }

  lemma {:induction false} UniformSum(d: Pending, f1: real)
    requires forall i :: 0 <= i < |d| ==> d[i].1.f1 == f1
    ensures NonZeroCount(d) == if f1 == 0.0 then 0 else |d|
    ensures NonZeroSum(d) == Times(|d| as real, f1)
  {
    if d != [] {
      UniformSum(d[1..], f1);
      OneMoreStep((|d| - 1) as real, f1);
    }
  }

  lemma UniformMean(d: Pending, m: nat, f1: real)
    requires m > 0 && Uniform(d, m, f1)
    ensures MeanF1(d) == ScoreOf(f1)
  {
    UniformSum(d, f1);
    QuotientOfProduct(m as real, f1);
  }

  lemma QuotientOfProduct(n: real, x: real)
    requires n > 0.0
    ensures Times(n, x) / n == x
  {
  }

  /** Every gated history of scores is that of a run: the submissions and rounds that play it. */
  lemma {:induction false} PlayScores(cfg: Config, m: nat, values: seq<real>)
    requires m > 0 && m >= cfg.minNodes && Gated(ScoresOf(values), cfg.delta)
    ensures Scores(cfg, Play(m, values)) == ScoresOf(values) && Run(cfg, START, Play(m, values)).pending == []
  {
    if values != [] {
      var n := |values| - 1;
      var before, f1 := values[..n], values[n];
      assert ScoresOf(before) == ScoresOf(values)[..n];
      PlayScores(cfg, m, before);
      ScoresGated(cfg, Play(m, before));
      assert n > 0 ==> !Regresses(ScoresOf(values)[n - 1], ScoresOf(values)[n], cfg.delta);
      PlayRound(cfg, Play(m, before), m, f1);
      assert ScoresOf(before) + [ScoreOf(f1)] == ScoresOf(values);
    }
  }

  lemma {:induction false} SubmissionsWithin(m: nat, f1: real, cap: real)
    requires 0.0 <= f1 <= cap
    ensures SubmitsWithin(Submissions(m, f1), cap)
  {
    if m > 0 { SubmissionsWithin(m - 1, f1, cap); }
  }

  lemma {:induction false} PlayWithin(m: nat, values: seq<real>, cap: real)
    requires forall i :: 0 <= i < |values| ==> 0.0 <= values[i] <= cap
    ensures SubmitsWithin(Play(m, values), cap)
  {
    if values != [] {
      PlayWithin(m, values[..|values| - 1], cap);
      SubmissionsWithin(m, values[|values| - 1], cap);
    }
  }

  /** A high score before position j, a low one after it. */
  function Drop(scored: seq<bool>, j: nat, high: real, low: real): (values: seq<real>)
    ensures |values| == |scored|
  {
    seq(|scored|, i requires 0 <= i < |scored| => if !scored[i] then 0.0 else if i < j then high else low)
  }

  /** The bound is guaranteed over all runs exactly when every served model in between has a non-zero F1, or when the
      allowance for so many promotions covers the whole range of scores: a single unscored model switches the gate off
      and lets the next one fall arbitrarily far. */
  lemma DeclineBoundedIffScored(cfg: Config, scored: seq<bool>, cap: real)
    requires scored != [] && scored[0] && scored[|scored| - 1] && cfg.delta >= 0.0 && cap > 0.0
    ensures DeclineBounded(cfg, scored, cap)
       <==> (forall i :: 0 <= i < |scored| ==> scored[i]) || Times((|scored| - 1) as real, cfg.delta) >= cap
  {
    var allowance := Times((|scored| - 1) as real, cfg.delta);
    if (forall i :: 0 <= i < |scored| ==> scored[i]) || allowance >= cap {
      forall events | SubmitsWithin(events, cap) && HasPattern(Scores(cfg, events), scored)
        ensures Bounded(Scores(cfg, events), cfg.delta)
      {
        BoundHolds(cfg, scored, cap, events);
      }
    } else {
      var j :| 0 <= j < |scored| && !scored[j];
      BoundFails(cfg, scored, cap, j, (cap - allowance) / 2.0);
    }
  }

  lemma BoundHolds(cfg: Config, scored: seq<bool>, cap: real, events: seq<Event>)
    requires scored != [] && scored[0] && scored[|scored| - 1]
    requires (forall i :: 0 <= i < |scored| ==> scored[i]) || Times((|scored| - 1) as real, cfg.delta) >= cap
    requires SubmitsWithin(events, cap) && HasPattern(Scores(cfg, events), scored)
    ensures Bounded(Scores(cfg, events), cfg.delta)
  {
    ScoresGated(cfg, events);
    RunWithin(cfg, events, cap);
    if forall i :: 0 <= i < |scored| ==> scored[i] { GatedDecline(Scores(cfg, events), cfg.delta); }
  }

  lemma BoundFails(cfg: Config, scored: seq<bool>, cap: real, j: nat, low: real)
    requires scored != [] && scored[0] && scored[|scored| - 1] && j < |scored| && !scored[j] && cfg.delta >= 0.0
    requires 0.0 < low < cap - Times((|scored| - 1) as real, cfg.delta)
    ensures !DeclineBounded(cfg, scored, cap)
  {
    var m: nat := if cfg.minNodes > 1 then cfg.minNodes else 1;
    DropIsPlayed(cfg, scored, j, cap, low, m);
  }

  /** The run that plays the drop violates the bound. */
  lemma DropIsPlayed(cfg: Config, scored: seq<bool>, j: nat, cap: real, low: real, m: nat)
    requires scored != [] && scored[0] && scored[|scored| - 1] && j < |scored| && !scored[j] && cfg.delta >= 0.0
    requires m > 0 && m >= cfg.minNodes && 0.0 < low < cap - Times((|scored| - 1) as real, cfg.delta)
    ensures var events := Play(m, Drop(scored, j, cap, low));
            SubmitsWithin(events, cap) && HasPattern(Scores(cfg, events), scored)
            && !Bounded(Scores(cfg, events), cfg.delta)
  {
    var values := Drop(scored, j, cap, low);
    ProductSign((|scored| - 1) as real, cfg.delta);
    DropIsGated(cfg, scored, j, cap, low);
    PlayScores(cfg, m, values);
    PlayWithin(m, values, cap);
  }

  lemma DropIsGated(cfg: Config, scored: seq<bool>, j: nat, high: real, low: real)
    requires j < |scored| && !scored[j] && cfg.delta >= 0.0
    ensures Gated(ScoresOf(Drop(scored, j, high, low)), cfg.delta)
  {
  }

  // ---------- the server object ----------

  class HQState {
    var currentRound: nat
    var activeVersion: nat
    var pending: Pending
    var globalModel: Option<Record>
    var registry: map<nat, Record>  // the files of the registry directory
    const cfg: Config
    var accepted: nat  // numbers the accepted submissions; not a field of the source

    ghost function View(): Server
      reads this
    {
      Server(currentRound, activeVersion, pending, globalModel, registry, accepted)
    }

    /** A server started on an empty registry directory. */
    constructor (cfg: Config)
      ensures View() == START && this.cfg == cfg
    {
      this.cfg := cfg;
      currentRound, activeVersion, pending, globalModel, registry, accepted := 0, 0, [], None, map[], 0;
    }

    /** A server started on the directory that another one has left behind. */
    constructor AfterRestart(previous: HQState)
      ensures View() == Step(previous.cfg, previous.View(), Restart) && this.cfg == previous.cfg
    {
      this.cfg := previous.cfg;
      currentRound, activeVersion, pending, globalModel := 0, 0, [], None;
      registry, accepted := previous.registry, previous.accepted;
    }

    /** The accept step: the branch's pending submission is replaced. */
    method Accept(branch: string, f1: real)
      modifies this
      ensures View() == Step(cfg, old(View()), Event.Accept(branch, f1))
    {
      pending := Put(pending, branch, Submission(accepted, f1));
      accepted := accepted + 1;
    }

    /** One call of the aggregation round. */
    method RunAggregationRound(outcome: Option<string>, unfair: bool) returns (promoted: bool)
      modifies this
      ensures View() == Step(cfg, old(View()), Aggregate(outcome, unfair))
      ensures promoted <==> Promotes(cfg, old(View()), outcome, unfair)
    {
      if |pending| < cfg.minNodes { return false; }
      if pending == [] || outcome.None? { return false; }
      if unfair {
        pending := [];
        return false;
      }
      var challenger := MeanF1(pending);
      var champion := ModelF1(globalModel);
      if champion.Some? && challenger.Some? && challenger.value < champion.value - cfg.delta {
        pending := [];
        return false;
      }
      currentRound := currentRound + 1;
      activeVersion := currentRound;
      var record := Record(currentRound, outcome.value, pending);
      globalModel := Some(record);
      registry := registry[currentRound := record];
      pending := [];
      promoted := true;
    }

    /** Serving an earlier version again; an unknown version is refused. */
    method Rollback(target: nat) returns (found: bool)
      modifies this
      ensures View() == Step(cfg, old(View()), Event.Rollback(target))
      ensures found <==> target in registry
    {
      if target !in registry { return false; }
      globalModel := Some(registry[target]);
      activeVersion := target;
      found := true;
    }
  }
}
