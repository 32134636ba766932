/** The hash-chained audit log of `hq_server.py`. An append is one atomic step. */
module AuditChain {
  import opened HashText

  /** An entry of the log file. The summary is the selection of details that is written beside the payload hash. */
  datatype Record = Record(seqNo: nat, event: string, branch: string, timestamp: string,
                           payloadHash: string, prevHash: string, hash: string, summary: map<string, string>)

  const GENESIS: string := "GENESIS"

  /** What an entry hashes: the previous hash, event, branch, timestamp and payload hash, but neither its number nor its
      summary. */
  function Fields(r: Record): seq<string> {
    [r.prevHash, r.event, r.branch, r.timestamp, r.payloadHash]
  }

  function LastHash(log: seq<Record>): string {
    if log == [] then GENESIS else log[|log| - 1].hash
  }

  /** The i-th entry links to the one before and carries the hash of its own fields. */
  predicate EntryOk(H: HashFunction, log: seq<Record>, i: nat)
    requires i < |log|
  {
    log[i].prevHash == LastHash(log[..i]) && log[i].hash == H(Join('|', Fields(log[i])))
  }

  predicate Verifies(H: HashFunction, log: seq<Record>) {
    forall i :: 0 <= i < |log| ==> EntryOk(H, log, i)
  }

  predicate Numbered(log: seq<Record>) {
    forall i :: 0 <= i < |log| ==> log[i].seqNo == i + 1
  }

  class AuditChain {
    var log: seq<Record>
    var prevHash: string
    const H: HashFunction

    /** The remembered hash is that of the last line of the file. */
    ghost predicate Valid()
      reads this
    {
      prevHash == LastHash(log)
    }

    /** Starting up on whatever the file holds. */
    constructor (H: HashFunction, file: seq<Record>)
      ensures Valid() && log == file && this.H == H
    {
      this.H, log := H, file;
      var prev := "GENESIS";
      for i := 0 to |file|
        invariant prev == LastHash(file[..i])
      {
        prev := file[i].hash;
      }
      assert file[..|file|] == file;
      prevHash := prev;
    }

    method Append(event: string, branch: string, timestamp: string, payloadHash: string, summary: map<string, string>)
      requires Valid()
      modifies this
      ensures Valid() && |log| == |old(log)| + 1 && log[..|old(log)|] == old(log)
      ensures var r := log[|old(log)|];
              r.event == event && r.branch == branch && r.timestamp == timestamp && r.payloadHash == payloadHash
              && r.summary == summary && r.seqNo == |log| && EntryOk(H, log, |old(log)|)
      ensures Verifies(H, old(log)) ==> Verifies(H, log)
      ensures Numbered(old(log)) ==> Numbered(log)
    {
      var entryHash := H(Join('|', [prevHash, event, branch, timestamp, payloadHash]));
      var record := Record(|log| + 1, event, branch, timestamp, payloadHash, prevHash, entryHash, summary);
      ghost var before := log;
      log := log + [record];
      prevHash := entryHash;
      assert log[..|before|] == before;
      forall i | 0 <= i < |log| && Verifies(H, before) ensures EntryOk(H, log, i) {
        assert log[..i] == before[..i];
        if i < |before| { assert EntryOk(H, before, i); }
      }
    }

    /** Walks the log and stops at the first bad entry. */
    method VerifyChain() returns (ok: bool, count: nat)
      ensures ok <==> Verifies(H, log)
      ensures ok ==> count == |log|
      ensures !ok ==> 0 < count <= |log| && Verifies(H, log[..count - 1]) && !EntryOk(H, log, count - 1)
    {
      var prev := "GENESIS";
      count := 0;
      for i := 0 to |log|
        invariant prev == LastHash(log[..i]) && count == i
        invariant forall k :: 0 <= k < i ==> EntryOk(H, log, k)
      {
        count := count + 1;
        var entry := log[i];
        var fields := [entry.prevHash, entry.event, entry.branch, entry.timestamp, entry.payloadHash];
        if entry.prevHash != prev || entry.hash != H(Join('|', fields)) {
          PrefixVerifies(H, log, i);
          assert !EntryOk(H, log, i);
          return false, count;
        }
        prev := entry.hash;
      }
      ok := true;
    }
  }

  lemma PrefixVerifies(H: HashFunction, log: seq<Record>, n: nat)
    requires n <= |log| && forall k :: 0 <= k < n ==> EntryOk(H, log, k)
    ensures Verifies(H, log[..n])
  {
    forall i | 0 <= i < n ensures EntryOk(H, log[..n], i) {
      assert EntryOk(H, log, i) && log[..n][..i] == log[..i];
    }
  }

  /** Written out: the first entry continues "GENESIS" and every other one the hash before it, and each carries the hash
      of the previous hash, event, branch, time and payload hash with bars between them. */
  predicate Linked(H: HashFunction, log: seq<Record>) {
    forall i :: 0 <= i < |log| ==>
      var r := log[i];
      && r.prevHash == (if i == 0 then "GENESIS" else log[i - 1].hash)
      && r.hash == H(r.prevHash + "|" + r.event + "|" + r.branch + "|" + r.timestamp + "|" + r.payloadHash)
  }

  lemma VerifiesMeans(H: HashFunction, log: seq<Record>)
    ensures Verifies(H, log) <==> Linked(H, log)
  {
    forall i | 0 <= i < |log|
      ensures EntryOk(H, log, i) <==>
              var r := log[i];
              && r.prevHash == (if i == 0 then "GENESIS" else log[i - 1].hash)
              && r.hash == H(r.prevHash + "|" + r.event + "|" + r.branch + "|" + r.timestamp + "|" + r.payloadHash)
    {
      var r := log[i];
      FiveFields('|', r.prevHash, r.event, r.branch, r.timestamp, r.payloadHash);
      Flat('|', r.prevHash, r.event, r.branch, r.timestamp, r.payloadHash);
    }
  }

  // ---------- tamper evidence ----------

  predicate CleanEntry(r: Record) {
    Free('|', r.event) && Free('|', r.branch) && Free('|', r.timestamp) && Free('|', r.payloadHash)
  }

  /** What a caller writes into an entry contains no '|'. */
  predicate Clean(log: seq<Record>) {
    forall i :: 0 <= i < |log| ==> CleanEntry(log[i])
  }

  /** Entry by entry the two logs differ at most in what is not hashed: sequence numbers and summaries. */
  predicate SameEntries(a: seq<Record>, b: seq<Record>) {
    |a| == |b| && forall i :: 0 <= i < |a| ==> b[i] == a[i].(seqNo := b[i].seqNo, summary := b[i].summary)
  }

  lemma HashIsClean(H: HashFunction, log: seq<Record>)
    requires GivesDigests(H) && Verifies(H, log)
    ensures Free('|', LastHash(log))
  {
    if log != [] { assert EntryOk(H, log, |log| - 1); }
  }

  function HashedText(r: Record): string {
    Join('|', Fields(r))
  }

  /** The texts that the entries of a log hash. */
  function HashedTexts(log: seq<Record>): set<string> {
    set i | 0 <= i < |log| :: HashedText(log[i])
  }

  lemma LastHashIsDigest(H: HashFunction, log: seq<Record>)
    requires GivesDigests(H) && Verifies(H, log)
    ensures LastHash(log) == GENESIS <==> log == []
  {
    if log != [] { assert EntryOk(H, log, |log| - 1) && |LastHash(log)| == 64; }
  }

  /** Two verifying logs with the same last hash are equally long and agree on everything but sequence numbers and
      summaries, if one of them is clean and the hash does not collide on what they hashed. */
  lemma {:induction false} LastHashBindsLog(H: HashFunction, texts: set<string>, a: seq<Record>, b: seq<Record>)
    requires GivesDigests(H) && Clean(a)
    requires InjectiveOn(H, texts) && HashedTexts(a) <= texts && HashedTexts(b) <= texts
    requires Verifies(H, a) && Verifies(H, b) && LastHash(a) == LastHash(b)
    ensures SameEntries(a, b)
    decreases |a|
  {
    LastHashIsDigest(H, a);
    LastHashIsDigest(H, b);
    if a != [] {
      var n, m := |a| - 1, |b| - 1;
      assert EntryOk(H, a, n) && EntryOk(H, b, m) && CleanEntry(a[n]);
      PrefixVerifies(H, a, n);
      PrefixVerifies(H, b, m);
      HashIsClean(H, a[..n]);
      TextsOfPrefix(a, n);
      TextsOfPrefix(b, m);
      EqualHashes(H, texts, '|', Fields(a[n]), Fields(b[m]));
      assert Fields(a[n])[0] == Fields(b[m])[0];
      LastHashBindsLog(H, texts, a[..n], b[..m]);
      OneMoreEntry(a, b, n);
    }
  }

  lemma OneMoreEntry(a: seq<Record>, b: seq<Record>, n: nat)
    requires |a| == |b| == n + 1 && SameEntries(a[..n], b[..n])
    requires Fields(a[n]) == Fields(b[n]) && a[n].hash == b[n].hash
    ensures SameEntries(a, b)
  {
    SameHashedFields(a[n], b[n]);
    forall i | 0 <= i < n ensures b[i] == a[i].(seqNo := b[i].seqNo, summary := b[i].summary) {
      assert a[..n][i] == a[i] && b[..n][i] == b[i];
    }
  }

  lemma SameHashedFields(r: Record, q: Record)
    requires Fields(r) == Fields(q) && r.hash == q.hash
    ensures q == r.(seqNo := q.seqNo, summary := q.summary)
  {
    assert Fields(r)[1] == Fields(q)[1] && Fields(r)[2] == Fields(q)[2];
    assert Fields(r)[3] == Fields(q)[3] && Fields(r)[4] == Fields(q)[4];
  }

  lemma TextsOfPrefix(log: seq<Record>, n: nat)
    requires n < |log|
    ensures HashedTexts(log[..n]) <= HashedTexts(log) && HashedText(log[n]) in HashedTexts(log)
  {
    forall s | s in HashedTexts(log[..n]) ensures s in HashedTexts(log) {
      var i :| 0 <= i < n && s == HashedText(log[..n][i]);
      assert s == HashedText(log[i]);
    }
  }

  lemma SameTexts(a: seq<Record>, b: seq<Record>)
    requires |a| == |b| && forall i :: 0 <= i < |a| ==> HashedText(a[i]) == HashedText(b[i])
    ensures HashedTexts(a) == HashedTexts(b)
  {
    forall i | 0 <= i < |a| ensures HashedText(a[i]) in HashedTexts(b) && HashedText(b[i]) in HashedTexts(a) {
      assert HashedText(a[i]) == HashedText(b[i]);
    }
  }

  // ---------- the twin of an entry with a bar ----------

  /** The fields of an entry that is not clean, with the bar moved to the other side of a neighbouring field. */
  function Twin(r: Record): Record
    requires !CleanEntry(r)
  {
    if !Free('|', r.event) then
      var k := FirstOf('|', r.event);
      r.(event := r.event[..k], branch := r.event[k + 1..] + "|" + r.branch)
    else if !Free('|', r.branch) then
      var k := FirstOf('|', r.branch);
      r.(branch := r.branch[..k], timestamp := r.branch[k + 1..] + "|" + r.timestamp)
    else if !Free('|', r.timestamp) then
      var k := FirstOf('|', r.timestamp);
      r.(timestamp := r.timestamp[..k], payloadHash := r.timestamp[k + 1..] + "|" + r.payloadHash)
    else
      var k := FirstOf('|', r.payloadHash);
      r.(timestamp := r.timestamp + "|" + r.payloadHash[..k], payloadHash := r.payloadHash[k + 1..])
  }

  /** Splitting x at a bar and putting the rest before y leaves the joined text of the two as it is. */
  lemma BarMoves(x: string, y: string, k: nat)
    requires k < |x| && x[k] == '|'
    ensures x + ['|'] + y == x[..k] + ['|'] + (x[k + 1..] + "|" + y)
  {
    assert x == x[..k] + ['|'] + x[k + 1..];
  }

  lemma Regroup(x: string, y: string, z: string)
    ensures x + ['|'] + (y + ['|'] + z) == (x + ['|'] + y) + ['|'] + z
  {
  }

  /** The twin is a different entry with the same hashed text. */
  lemma TwinHashesAlike(r: Record)
    requires !CleanEntry(r)
    ensures Fields(Twin(r)) != Fields(r) && HashedText(Twin(r)) == HashedText(r)
    ensures Twin(r).prevHash == r.prevHash && Twin(r).hash == r.hash
  {
    var t := Twin(r);
    FiveFields('|', r.prevHash, r.event, r.branch, r.timestamp, r.payloadHash);
    FiveFields('|', t.prevHash, t.event, t.branch, t.timestamp, t.payloadHash);
    var last := r.timestamp + ['|'] + r.payloadHash;
    if !Free('|', r.event) {
      BarMoves(r.event, r.branch, FirstOf('|', r.event));
      Regroup(r.event, r.branch, last);
      Regroup(t.event, t.branch, last);
      assert Fields(t)[1] != Fields(r)[1];
    } else if !Free('|', r.branch) {
      BarMoves(r.branch, r.timestamp, FirstOf('|', r.branch));
      Regroup(r.branch, r.timestamp, r.payloadHash);
      Regroup(t.branch, t.timestamp, r.payloadHash);
      assert Fields(t)[2] != Fields(r)[2];
    } else if !Free('|', r.timestamp) {
      BarMoves(r.timestamp, r.payloadHash, FirstOf('|', r.timestamp));
      assert Fields(t)[3] != Fields(r)[3];
    } else {
      var k := FirstOf('|', r.payloadHash);
      assert r.payloadHash == r.payloadHash[..k] + ['|'] + r.payloadHash[k + 1..];
      assert t.timestamp + ['|'] + t.payloadHash == r.timestamp + ['|'] + r.payloadHash;
      assert Fields(t)[4] != Fields(r)[4];
    }
  }

  /** Replacing an unclean entry by its twin gives another verifying log with the same hashes and hashed texts. */
  lemma BarMovesBetweenFields(H: HashFunction, log: seq<Record>, i: nat)
    requires Verifies(H, log) && i < |log| && !CleanEntry(log[i])
    ensures var b := log[i := Twin(log[i])];
            Verifies(H, b) && LastHash(b) == LastHash(log) && HashedTexts(b) == HashedTexts(log) && !SameEntries(log, b)
  {
    var b := log[i := Twin(log[i])];
    TwinHashesAlike(log[i]);
    forall k | 0 <= k < |b| ensures EntryOk(H, b, k) {
      assert EntryOk(H, log, k);
      assert LastHash(b[..k]) == LastHash(log[..k]);
    }
    SameTexts(log, b);
    assert Fields(log[i]) != Fields(b[i]);
  }

  // ---------- what is not hashed ----------

  /** Whatever sequence numbers and summaries a log is given, it verifies as before, with the same last hash. */
  lemma LabelsAreUnbound(H: HashFunction, log: seq<Record>, b: seq<Record>)
    requires SameEntries(log, b)
    ensures Verifies(H, b) <==> Verifies(H, log)
    ensures LastHash(b) == LastHash(log) && HashedTexts(b) == HashedTexts(log)
  {
    forall i | 0 <= i < |b| ensures EntryOk(H, b, i) <==> EntryOk(H, log, i) {
      assert LastHash(b[..i]) == LastHash(log[..i]);
    }
    SameTexts(log, b);
  }

  /** So changing an entry does not break the chain if only its number or summary is changed. */
  lemma RelabelledEntryVerifies(H: HashFunction, log: seq<Record>, i: nat, seqNo: nat, summary: map<string, string>)
    requires Verifies(H, log) && i < |log|
    ensures var b := log[i := log[i].(seqNo := seqNo, summary := summary)];
            Verifies(H, b) && LastHash(b) == LastHash(log)
            && (b == log <==> seqNo == log[i].seqNo && summary == log[i].summary)
  {
    var b := log[i := log[i].(seqNo := seqNo, summary := summary)];
    LabelsAreUnbound(H, log, b);
    assert b[i].seqNo == seqNo && b[i].summary == summary;
  }

  // ---------- the exact condition ----------

  /** Another log passes for this one: it verifies with the same last hash, and nothing that either hashed collides. */
  ghost predicate PassesFor(H: HashFunction, b: seq<Record>, a: seq<Record>) {
    Verifies(H, b) && LastHash(b) == LastHash(a) && InjectiveOn(H, HashedTexts(a) + HashedTexts(b))
  }

  /** The logs that pass for this one are those that differ from it in sequence numbers and summaries, and no others. */
  ghost predicate Binding(H: HashFunction, a: seq<Record>) {
    forall b :: PassesFor(H, b, a) <==> SameEntries(a, b)
  }

  /** The last hash binds all hashed fields of a verifying log, and only those, exactly when no field that a caller
      wrote contains a bar. */
  lemma TamperEvidentIff(H: HashFunction, a: seq<Record>)
    requires GivesDigests(H) && Verifies(H, a) && InjectiveOn(H, HashedTexts(a))
    ensures Binding(H, a) <==> Clean(a)
  {
    if Clean(a) {
      forall b ensures PassesFor(H, b, a) <==> SameEntries(a, b) { CleanBinds(H, a, b); }
    } else {
      var i :| 0 <= i < |a| && !CleanEntry(a[i]);
      BarMovesBetweenFields(H, a, i);
      assert HashedTexts(a) + HashedTexts(a[i := Twin(a[i])]) == HashedTexts(a);
      assert PassesFor(H, a[i := Twin(a[i])], a);
    }
  }

  lemma CleanBinds(H: HashFunction, a: seq<Record>, b: seq<Record>)
    requires GivesDigests(H) && Verifies(H, a) && InjectiveOn(H, HashedTexts(a)) && Clean(a)
    ensures PassesFor(H, b, a) <==> SameEntries(a, b)
  {
    if PassesFor(H, b, a) { LastHashBindsLog(H, HashedTexts(a) + HashedTexts(b), a, b); }
    if SameEntries(a, b) {
      LabelsAreUnbound(H, a, b);
      assert HashedTexts(a) + HashedTexts(b) == HashedTexts(a);
    }
  }
}
