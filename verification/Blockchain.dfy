/** The transaction blockchain of `go_bff/chain.go`: blocks sealed over the transactions table, and the header
    check that verification performs. */
module Blockchain {
  import opened HashText
  import opened Merkle
  import opened Options
  import opened PowersOfTwo

  const DIFFICULTY: nat := 3

  /** The columns of the transactions table that no leaf hashes; the last entry stands for reference, currency, status,
      initiator, channel, branch and creation time. */
  datatype Columns = Columns(fromAccount: string, toAccount: string, fee: int, description: string, balanceAfter: int,
                             others: seq<string>)

  /** A row of the transactions table; amounts are in paisa. */
  datatype Txn = Txn(rowid: nat, id: string, ttype: string, amount: int, columns: Columns)

  datatype Block = Block(idx: int, prevHash: string, merkleRoot: string, txCount: nat,
                         nonce: int, difficulty: nat, ts: string, hash: string)

  function BlockFields(idx: int, prev: string, root: string, ts: string, nonce: int): seq<string> {
    [Decimal(idx), prev, root, ts, Decimal(nonce)]
  }

  function BlockHash(H: HashFunction, idx: int, prev: string, root: string, ts: string, nonce: int): string {
    H(Join('|', BlockFields(idx, prev, root, ts, nonce)))
  }

  function Recomputed(H: HashFunction, b: Block): string {
    BlockHash(H, b.idx, b.prevHash, b.merkleRoot, b.ts, b.nonce)
  }

  function TxnLeaf(H: HashFunction, id: string, ttype: string, amount: int): string {
    H(Join(':', ["txn", id, ttype, FixedTwo(amount)]))
  }

  function Leaves(H: HashFunction, batch: seq<Txn>): (ls: seq<string>)
    ensures |ls| == |batch|
  {
    seq(|batch|, i requires 0 <= i < |batch| => TxnLeaf(H, batch[i].id, batch[i].ttype, batch[i].amount))
  }

  /** The hash starts with the required number of zeros. */
  predicate MeetsDifficulty(hash: string, difficulty: nat) {
    Zeros(difficulty) <= hash
  }

  ghost predicate Mineable(H: HashFunction, idx: int, prev: string, root: string, ts: string) {
    exists nonce: nat :: MeetsDifficulty(BlockHash(H, idx, prev, root, ts, nonce), DIFFICULTY)
  }

  /** The first nonce from 0 whose hash meets the difficulty; the search has no bound of its own, so one is
      assumed to exist. */
  method MineBlock(H: HashFunction, idx: int, prev: string, root: string, ts: string) returns (nonce: nat, hash: string)
    requires Mineable(H, idx, prev, root, ts)
    ensures hash == BlockHash(H, idx, prev, root, ts, nonce) && MeetsDifficulty(hash, DIFFICULTY)
    ensures forall k: nat :: k < nonce ==> !MeetsDifficulty(BlockHash(H, idx, prev, root, ts, k), DIFFICULTY)
  {
    ghost var bound: nat :| MeetsDifficulty(BlockHash(H, idx, prev, root, ts, bound), DIFFICULTY);
    nonce := 0;
    hash := BlockHash(H, idx, prev, root, ts, 0);
    while !MeetsDifficulty(hash, DIFFICULTY)
      invariant nonce <= bound && hash == BlockHash(H, idx, prev, root, ts, nonce)
      invariant forall k: nat :: k < nonce ==> !MeetsDifficulty(BlockHash(H, idx, prev, root, ts, k), DIFFICULTY)
      decreases bound - nonce
    {
      nonce := nonce + 1;
      hash := BlockHash(H, idx, prev, root, ts, nonce);
    }
  }

  // ---------- header verification ----------

  function TipHash(blocks: seq<Block>): string {
    if blocks == [] then Zeros(64) else blocks[|blocks| - 1].hash
  }

  predicate HeaderOk(H: HashFunction, blocks: seq<Block>, i: nat)
    requires i < |blocks|
  {
    && blocks[i].prevHash == TipHash(blocks[..i])
    && blocks[i].hash == Recomputed(H, blocks[i])
    && MeetsDifficulty(blocks[i].hash, blocks[i].difficulty)
  }

  predicate HeadersVerify(H: HashFunction, blocks: seq<Block>) {
    forall i :: 0 <= i < |blocks| ==> HeaderOk(H, blocks, i)
  }

  lemma HeadersOfPrefix(H: HashFunction, blocks: seq<Block>, n: nat)
    requires n <= |blocks| && forall i :: 0 <= i < n ==> HeaderOk(H, blocks, i)
    ensures HeadersVerify(H, blocks[..n])
  {
    forall i | 0 <= i < n ensures HeaderOk(H, blocks[..n], i) {
      assert HeaderOk(H, blocks, i) && blocks[..n][..i] == blocks[..i];
    }
  }

  /** Written out: the first block continues 64 zeros and every other one the hash before it, each carries the hash of
      its index, previous hash, root, time and nonce with bars between them, and that hash starts with as many zeros as
      the block's difficulty. */
  predicate Intact(H: HashFunction, blocks: seq<Block>) {
    forall i :: 0 <= i < |blocks| ==> IntactAt(H, blocks, i)
  }

  predicate IntactAt(H: HashFunction, blocks: seq<Block>, i: nat)
    requires i < |blocks|
  {
    var b := blocks[i];
    && (if i == 0 then |b.prevHash| == 64 && (forall k :: 0 <= k < 64 ==> b.prevHash[k] == '0')
        else b.prevHash == blocks[i - 1].hash)
    && b.hash == H(Decimal(b.idx) + "|" + b.prevHash + "|" + b.merkleRoot + "|" + b.ts + "|" + Decimal(b.nonce))
    && |b.hash| >= b.difficulty && forall k :: 0 <= k < b.difficulty ==> b.hash[k] == '0'
  }

  lemma HeadersMean(H: HashFunction, blocks: seq<Block>)
    ensures HeadersVerify(H, blocks) <==> Intact(H, blocks)
  {
    forall i | 0 <= i < |blocks| ensures HeaderOk(H, blocks, i) <==> IntactAt(H, blocks, i) {
      var b := blocks[i];
      FiveFields('|', Decimal(b.idx), b.prevHash, b.merkleRoot, b.ts, Decimal(b.nonce));
      Flat('|', Decimal(b.idx), b.prevHash, b.merkleRoot, b.ts, Decimal(b.nonce));
      ZerosFirst(b.difficulty, b.hash);
    }
  }

  lemma ZerosFirst(n: nat, s: string)
    ensures Zeros(n) <= s <==> n <= |s| && forall k :: 0 <= k < n ==> s[k] == '0'
  {
    if n <= |s| && forall k :: 0 <= k < n ==> s[k] == '0' { assert s[..n] == Zeros(n); }
  }

  // ---------- batches ----------

  predicate IncreasingRows(txns: seq<Txn>) {
    && (forall i :: 0 <= i < |txns| ==> txns[i].rowid > 0)
    && (forall i, j :: 0 <= i < j < |txns| ==> txns[i].rowid < txns[j].rowid)
  }

  /** The rows after a high-water mark, in order. */
  function RowsAfter(txns: seq<Txn>, mark: nat): seq<Txn> {
    if txns == [] then []
    else (if txns[0].rowid > mark then [txns[0]] else []) + RowsAfter(txns[1..], mark)
  }

  function RowsUpTo(txns: seq<Txn>, mark: nat): seq<Txn> {
    if txns == [] then []
    else (if txns[0].rowid <= mark then [txns[0]] else []) + RowsUpTo(txns[1..], mark)
  }

  function Concat(batches: seq<seq<Txn>>): seq<Txn> {
    if batches == [] then [] else Concat(batches[..|batches| - 1]) + batches[|batches| - 1]
  }

  function TotalCount(blocks: seq<Block>): nat {
    if blocks == [] then 0 else TotalCount(blocks[..|blocks| - 1]) + blocks[|blocks| - 1].txCount
  }

  lemma {:induction false} AllRowsUpTo(txns: seq<Txn>, mark: nat)
    requires forall i :: 0 <= i < |txns| ==> txns[i].rowid <= mark
    ensures RowsUpTo(txns, mark) == txns && RowsAfter(txns, mark) == []
  {
    if txns != [] { AllRowsUpTo(txns[1..], mark); }
  }

  lemma {:induction false} AllRowsAfter(txns: seq<Txn>, mark: nat)
    requires forall i :: 0 <= i < |txns| ==> txns[i].rowid > mark
    ensures RowsUpTo(txns, mark) == [] && RowsAfter(txns, mark) == txns
  {
    if txns != [] { AllRowsAfter(txns[1..], mark); }
  }

  /** In a table ordered by rowid, the rows up to a mark and the rows after it are its two parts. */
  lemma {:induction false} RowsSplit(txns: seq<Txn>, mark: nat)
    requires IncreasingRows(txns)
    ensures RowsUpTo(txns, mark) + RowsAfter(txns, mark) == txns
    ensures IncreasingRows(RowsAfter(txns, mark))
  {
    if txns != [] {
      if txns[0].rowid > mark {
        AllRowsAfter(txns, mark);
      } else {
        RowsSplit(txns[1..], mark);
        assert txns == [txns[0]] + txns[1..];
      }
    }
  }

  lemma {:induction false} LaterRow(txns: seq<Txn>, t: Txn, mark: nat)
    requires t.rowid > mark
    ensures RowsUpTo(txns + [t], mark) == RowsUpTo(txns, mark)
  {
    if txns == [] {
      assert RowsUpTo([t], mark) == RowsUpTo([t][1..], mark) == [];
    } else {
      assert (txns + [t])[1..] == txns[1..] + [t];
      LaterRow(txns[1..], t, mark);
    }
  }

  /** Block i records the Merkle root and the size of batch i. */
  predicate BlocksRecord(H: HashFunction, blocks: seq<Block>, batches: seq<seq<Txn>>) {
    && |blocks| == |batches|
    && (forall i :: 0 <= i < |blocks| ==>
          && blocks[i].idx == i && blocks[i].txCount == |batches[i]|
          && blocks[i].merkleRoot == Root(H, Leaves(H, batches[i])))
  }

  lemma {:induction false} CountsAddUp(H: HashFunction, blocks: seq<Block>, batches: seq<seq<Txn>>)
    requires BlocksRecord(H, blocks, batches)
    ensures TotalCount(blocks) == |Concat(batches)|
  {
    if blocks != [] { CountsAddUp(H, blocks[..|blocks| - 1], batches[..|batches| - 1]); }
  }

  /** What every state reachable by genesis, recording and sealing satisfies: the headers verify, and the batches
      in block order are exactly the transactions up to the high-water mark, each once and in order. */
  ghost predicate Consistent(H: HashFunction, txns: seq<Txn>, blocks: seq<Block>, mark: nat, batches: seq<seq<Txn>>) {
    && IncreasingRows(txns)
    && (if txns == [] then mark == 0 else mark <= txns[|txns| - 1].rowid)
    && HeadersVerify(H, blocks)
    && BlocksRecord(H, blocks, batches)
    && Concat(batches) == RowsUpTo(txns, mark)
  }

  /** The block seals these rows on top of the chain, up to a new mark. */
  predicate Seals(H: HashFunction, blocks: seq<Block>, pending: seq<Txn>, b: Block, newMark: nat) {
    && pending != [] && newMark == pending[|pending| - 1].rowid
    && b.idx == |blocks| && b.prevHash == TipHash(blocks) && b.txCount == |pending|
    && b.merkleRoot == Root(H, Leaves(H, pending)) && b.hash == Recomputed(H, b)
    && MeetsDifficulty(b.hash, b.difficulty)
  }

  /** One sealed block more. */
  lemma {:induction false} SealStep(H: HashFunction, txns: seq<Txn>, blocks: seq<Block>, mark: nat,
                                    batches: seq<seq<Txn>>, pending: seq<Txn>, b: Block, newMark: nat,
                                    newBlocks: seq<Block>, newBatches: seq<seq<Txn>>)
    requires newBlocks == blocks + [b] && newBatches == batches + [pending]
    requires Consistent(H, txns, blocks, mark, batches)
    requires pending == RowsAfter(txns, mark) && Seals(H, blocks, pending, b, newMark)
    ensures Consistent(H, txns, newBlocks, newMark, newBatches)
    ensures txns != [] && Concat(newBatches) == txns && newMark == txns[|txns| - 1].rowid
  {
    SealedRows(txns, mark, pending, newMark);
    ExtendHeaders(H, blocks, newBlocks);
    ExtendRecords(H, blocks, batches, pending, b, newBlocks, newBatches);
  }

  lemma SealedRows(txns: seq<Txn>, mark: nat, pending: seq<Txn>, newMark: nat)
    requires IncreasingRows(txns) && pending == RowsAfter(txns, mark) != []
    requires newMark == pending[|pending| - 1].rowid
    ensures RowsUpTo(txns, newMark) == txns == RowsUpTo(txns, mark) + pending
    ensures txns != [] && newMark == txns[|txns| - 1].rowid
  {
    RowsSplit(txns, mark);
    assert txns[|txns| - 1] == pending[|pending| - 1];
    AllRowsUpTo(txns, newMark);
  }

  lemma ExtendRecords(H: HashFunction, blocks: seq<Block>, batches: seq<seq<Txn>>, pending: seq<Txn>, b: Block,
                      newBlocks: seq<Block>, newBatches: seq<seq<Txn>>)
    requires newBlocks == blocks + [b] && newBatches == batches + [pending] && BlocksRecord(H, blocks, batches)
    requires b.idx == |blocks| && b.txCount == |pending| && b.merkleRoot == Root(H, Leaves(H, pending))
    ensures BlocksRecord(H, newBlocks, newBatches) && Concat(newBatches) == Concat(batches) + pending
  {
    assert newBatches[..|batches|] == batches;
  }

  /** The genesis block on its own, with an empty batch and the mark at zero. */
  lemma GenesisStep(H: HashFunction, txns: seq<Txn>, blocks: seq<Block>)
    requires IncreasingRows(txns) && |blocks| == 1 && blocks[0].idx == 0 && blocks[0].txCount == 0
    requires blocks[0].prevHash == blocks[0].merkleRoot == Zeros(64)
    requires blocks[0].hash == Recomputed(H, blocks[0]) && MeetsDifficulty(blocks[0].hash, blocks[0].difficulty)
    ensures Consistent(H, txns, blocks, 0, [[]])
  {
    var batches: seq<seq<Txn>> := [[]];
    AllRowsAfter(txns, 0);
    assert blocks[..0] == [] && batches[..0] == [] && Concat(batches) == [];
  }

  lemma RecordStep(H: HashFunction, txns: seq<Txn>, blocks: seq<Block>, mark: nat, batches: seq<seq<Txn>>, t: Txn)
    requires Consistent(H, txns, blocks, mark, batches)
    requires t.rowid > 0 && (txns != [] ==> t.rowid > txns[|txns| - 1].rowid)
    ensures Consistent(H, txns + [t], blocks, mark, batches)
  {
    LaterRow(txns, t, mark);
  }

  lemma PendingIncreasing(txns: seq<Txn>, pending: seq<Txn>, mark: nat)
    requires IncreasingRows(txns) && pending == RowsAfter(txns, mark)
    ensures IncreasingRows(pending)
  {
    RowsSplit(txns, mark);
  }

  lemma TipIndex(H: HashFunction, blocks: seq<Block>, batches: seq<seq<Txn>>)
    requires BlocksRecord(H, blocks, batches) && blocks != []
    ensures blocks[|blocks| - 1].idx == |blocks| - 1
  {
  }

  /** The scan over the pending rows. */
  method ReadPending(H: HashFunction, pending: seq<Txn>) returns (leaves: seq<string>, maxRowid: nat)
    requires IncreasingRows(pending)
    ensures leaves == Leaves(H, pending)
    ensures maxRowid == if pending == [] then 0 else pending[|pending| - 1].rowid
  {
    leaves, maxRowid := [], 0;
    for i := 0 to |pending|
      invariant leaves == Leaves(H, pending)[..i]
      invariant maxRowid == if i == 0 then 0 else pending[i - 1].rowid
    {
      leaves := leaves + [TxnLeaf(H, pending[i].id, pending[i].ttype, pending[i].amount)];
      if pending[i].rowid > maxRowid { maxRowid := pending[i].rowid; }
    }
    assert leaves == Leaves(H, pending);
  }

  /** Hashes and mines the block that seals these rows. */
  method BuildBlock(H: HashFunction, blocks: seq<Block>, pending: seq<Txn>, ts: string)
    returns (b: Block, maxRowid: nat)
    requires blocks != [] && blocks[|blocks| - 1].idx == |blocks| - 1 && pending != [] && IncreasingRows(pending)
    requires Mineable(H, |blocks|, TipHash(blocks), Root(H, Leaves(H, pending)), ts)
    ensures Seals(H, blocks, pending, b, maxRowid) && b.ts == ts && b.difficulty == DIFFICULTY
  {
    var leaves;
    leaves, maxRowid := ReadPending(H, pending);
    var idx := blocks[|blocks| - 1].idx + 1;
    var prevHash := blocks[|blocks| - 1].hash;
    var root := MerkleRootHex(H, leaves);
    var nonce, hash := MineBlock(H, idx, prevHash, root, ts);
    b := Block(idx, prevHash, root, |leaves|, nonce, DIFFICULTY, ts, hash);
  }

  /** The ledger tables: transactions, blocks, and the stored high-water mark. `batches` remembers which
      transactions went into which block. */
  class Ledger {
    var txns: seq<Txn>
    var blocks: seq<Block>
    var lastRowid: Option<nat>
    ghost var batches: seq<seq<Txn>>
    const H: HashFunction

    function Mark(): nat
      reads this
    {
      if lastRowid.Some? then lastRowid.value else 0
    }

    ghost predicate Valid()
      reads this
    {
      (blocks == [] ==> lastRowid.None?) && Consistent(H, txns, blocks, Mark(), batches)
    }

    constructor (H: HashFunction)
      ensures Valid() && txns == [] && blocks == [] && this.H == H
    {
      this.H, txns, blocks, lastRowid, batches := H, [], [], None, [];
    }

    method Record(t: Txn)
      requires Valid() && t.rowid > 0 && (txns != [] ==> t.rowid > txns[|txns| - 1].rowid)
      modifies this`txns
      ensures Valid() && txns == old(txns) + [t]
    {
      RecordStep(H, txns, blocks, Mark(), batches, t);
      txns := txns + [t];
    }

    method EnsureGenesis(ts: string)
      requires Valid() && (blocks == [] ==> Mineable(H, 0, Zeros(64), Zeros(64), ts))
      modifies this`blocks, this`lastRowid, this`batches
      ensures Valid() && |blocks| > 0 && Mark() == old(Mark())
      ensures old(blocks) != [] ==> blocks == old(blocks)
      ensures old(batches) <= batches
      ensures old(blocks) == [] ==> |blocks| == 1 && blocks[0].txCount == 0
      ensures old(blocks) == [] ==> blocks[0].ts == ts && blocks[0].difficulty == DIFFICULTY
    {
      if blocks != [] { return; }
      var nonce, hash := MineBlock(H, 0, Zeros(64), Zeros(64), ts);
      blocks := [Block(0, Zeros(64), Zeros(64), 0, nonce, DIFFICULTY, ts, hash)];
      batches := [[]];
      lastRowid := Some(0);
      GenesisStep(H, txns, blocks);
    }

    method SetChain(newBlocks: seq<Block>, ghost newBatches: seq<seq<Txn>>, maxRowid: nat)
      requires newBlocks != [] && Consistent(H, txns, newBlocks, maxRowid, newBatches)
      modifies this`blocks, this`lastRowid, this`batches
      ensures Valid() && blocks == newBlocks && batches == newBatches && Mark() == maxRowid
    {
      blocks, batches, lastRowid := newBlocks, newBatches, Some(maxRowid);
    }

    /** Appends the sealed block and moves the high-water mark. */
    method Append(ghost pending: seq<Txn>, b: Block, maxRowid: nat)
      requires Valid() && blocks != [] && pending == RowsAfter(txns, Mark()) && Seals(H, blocks, pending, b, maxRowid)
      modifies this`blocks, this`lastRowid, this`batches
      ensures Valid() && blocks == old(blocks) + [b] && batches == old(batches) + [pending] && Mark() == maxRowid
      ensures Concat(batches) == txns && txns != [] && maxRowid == txns[|txns| - 1].rowid
    {
      var newBlocks := blocks + [b];
      ghost var newBatches := batches + [pending];
      SealedChain(pending, b, maxRowid, newBlocks, newBatches);
      SetChain(newBlocks, newBatches, maxRowid);
    }

    lemma {:induction false} SealedChain(pending: seq<Txn>, b: Block, maxRowid: nat, newBlocks: seq<Block>,
                                         newBatches: seq<seq<Txn>>)
      requires Valid() && pending == RowsAfter(txns, Mark()) && Seals(H, blocks, pending, b, maxRowid)
      requires newBlocks == blocks + [b] && newBatches == batches + [pending]
      ensures Consistent(H, txns, newBlocks, maxRowid, newBatches)
      ensures Concat(newBatches) == txns && txns != [] && maxRowid == txns[|txns| - 1].rowid
    {
      SealStep(H, txns, blocks, Mark(), batches, pending, b, maxRowid, newBlocks, newBatches);
    }

    /** Seals pending rows on top of an existing chain. */
    method SealRows(pending: seq<Txn>, ts: string)
      requires Valid() && blocks != [] && pending == RowsAfter(txns, Mark()) != []
      requires Mineable(H, |blocks|, TipHash(blocks), Root(H, Leaves(H, pending)), ts)
      modifies this`blocks, this`lastRowid, this`batches
      ensures Valid() && |blocks| == |old(blocks)| + 1
      ensures var b := blocks[|blocks| - 1]; b.txCount == |pending| && b.ts == ts && b.difficulty == DIFFICULTY
      ensures old(blocks) <= blocks && old(batches) <= batches
      ensures Concat(batches) == txns && txns != [] && Mark() == txns[|txns| - 1].rowid
    {
      PendingIncreasing(txns, pending, Mark());
      TipIndex(H, blocks, batches);
      var b, maxRowid := BuildBlock(H, blocks, pending, ts);
      Append(pending, b, maxRowid);
    }

    /** Seals every pending transaction into one block, or reports that none is pending; the genesis block is
        created either way. */
    method SealNextBlock(ts: string) returns (sealed: bool)
      requires Valid() && (forall idx: int, prev: string, root: string :: Mineable(H, idx, prev, root, ts))
      modifies this`blocks, this`lastRowid, this`batches
      ensures Valid()
      ensures sealed <==> RowsAfter(txns, old(Mark())) != []
      ensures !sealed ==> Mark() == old(Mark()) && (old(blocks) != [] ==> blocks == old(blocks))
      ensures sealed ==> txns != [] && Mark() == txns[|txns| - 1].rowid && Concat(batches) == txns
      ensures old(blocks) <= blocks && old(batches) <= batches
      ensures sealed ==> |blocks| > |old(blocks)| && blocks[|blocks| - 1].txCount == |RowsAfter(txns, old(Mark()))|
                         && blocks[|blocks| - 1].ts == ts && blocks[|blocks| - 1].difficulty == DIFFICULTY
    {
      EnsureGenesis(ts);
      assert old(blocks) <= blocks;
      var pending := RowsAfter(txns, Mark());
      sealed := pending != [];
      if sealed { SealRows(pending, ts); }
    }

    /** Verification checks links, hashes and proof of work of every header, and reports the first bad block. It
        reads no transaction. */
    method Verify() returns (valid: bool, verified: nat, brokenAt: int)
      ensures valid <==> HeadersVerify(H, blocks)
      ensures valid ==> verified == |blocks| && brokenAt == -1
      ensures !valid ==> 0 < verified <= |blocks| && brokenAt == blocks[verified - 1].idx
                         && HeadersVerify(H, blocks[..verified - 1]) && !HeaderOk(H, blocks, verified - 1)
    {
      valid, brokenAt, verified := true, -1, 0;
      var prevExpected := Zeros(64);
      for i := 0 to |blocks|
        invariant verified == i && prevExpected == TipHash(blocks[..i])
        invariant forall k :: 0 <= k < i ==> HeaderOk(H, blocks, k)
      {
        verified := verified + 1;
        var b := blocks[i];
        var linkOk := b.prevHash == prevExpected;
        var hashOk := BlockHash(H, b.idx, b.prevHash, b.merkleRoot, b.ts, b.nonce) == b.hash;
        var powOk := Zeros(b.difficulty) <= b.hash;
        if !linkOk || !hashOk || !powOk {
          HeadersOfPrefix(H, blocks, i);
          assert !HeaderOk(H, blocks, i);
          return false, verified, b.idx;
        }
        prevExpected := b.hash;
      }
    }

    /** Somebody rewrites the transactions table at will. Verification answers as before the rewriting; a check that
        recomputed the roots, however it cut the new table into batches, would pass exactly when every batch is padded
        to the recorded content. */
    method VerifyRewritten(altered: seq<Txn>, ghost cut: seq<seq<Txn>>) returns (before: Verdict, after: Verdict)
      requires GivesDigests(H) && RootsRecorded(H, blocks, batches) && CleanBatches(batches) && |cut| == |batches|
      requires BindsTexts(H, ChainTexts(H, batches) + ChainTexts(H, cut))
      modifies this`txns
      ensures txns == altered && before == after
      ensures RootsRecorded(H, blocks, cut) <==> forall i :: 0 <= i < |cut| ==> SamePadded(batches[i], cut[i])
    {
      RecomputedRootsIff(H, blocks, batches, cut);
      before, after := VerifyAround(altered);
    }

    method VerifyAround(altered: seq<Txn>) returns (before: Verdict, after: Verdict)
      modifies this`txns
      ensures txns == altered && before == after
    {
      var valid, verified, brokenAt := Verify();
      before := Verdict(valid, verified, brokenAt);
      txns := altered;
      valid, verified, brokenAt := Verify();
      after := Verdict(valid, verified, brokenAt);
      if !before.valid {
        GoodBefore(H, blocks, before.verified - 1);
        GoodBefore(H, blocks, after.verified - 1);
      }
    }
  }

  datatype Verdict = Verdict(valid: bool, verified: nat, brokenAt: int)

  lemma GoodBefore(H: HashFunction, blocks: seq<Block>, n: nat)
    requires n <= |blocks| && HeadersVerify(H, blocks[..n])
    ensures forall k :: 0 <= k < n ==> HeaderOk(H, blocks, k)
  {
    forall k | 0 <= k < n ensures HeaderOk(H, blocks, k) {
      assert HeaderOk(H, blocks[..n], k) && blocks[..n][..k] == blocks[..k];
    }
  }

  lemma ExtendHeaders(H: HashFunction, before: seq<Block>, after: seq<Block>)
    requires HeadersVerify(H, before) && |after| == |before| + 1 && after[..|before|] == before
    requires after[|before|].prevHash == TipHash(before) && after[|before|].hash == Recomputed(H, after[|before|])
    requires MeetsDifficulty(after[|before|].hash, after[|before|].difficulty)
    ensures HeadersVerify(H, after)
  {
    forall i | 0 <= i < |after| ensures HeaderOk(H, after, i) {
      assert after[..i] == before[..i];
      if i < |before| { assert HeaderOk(H, before, i) && after[i] == before[i]; } else { assert before[..i] == before; }
    }
  }

  // ---------- tamper evidence: headers ----------

  predicate CleanTimes(blocks: seq<Block>) {
    forall i :: 0 <= i < |blocks| ==> Free('|', blocks[i].ts)
  }

  predicate CleanRoots(blocks: seq<Block>) {
    forall i :: 0 <= i < |blocks| ==> Free('|', blocks[i].merkleRoot)
  }

  predicate SameHeader(b: Block, c: Block) {
    b.idx == c.idx && b.prevHash == c.prevHash && b.merkleRoot == c.merkleRoot && b.ts == c.ts && b.nonce == c.nonce
    && b.hash == c.hash
  }

  predicate SameHeaders(a: seq<Block>, b: seq<Block>) {
    |a| == |b| && forall i :: 0 <= i < |a| ==> SameHeader(a[i], b[i])
  }

  lemma TipIsClean(H: HashFunction, blocks: seq<Block>)
    requires GivesDigests(H) && HeadersVerify(H, blocks)
    ensures Free('|', TipHash(blocks))
  {
    if blocks != [] { assert HeaderOk(H, blocks, |blocks| - 1); }
  }

  function HeaderText(b: Block): string {
    Join('|', BlockFields(b.idx, b.prevHash, b.merkleRoot, b.ts, b.nonce))
  }

  /** The texts that the headers hash. */
  function HeaderTexts(blocks: seq<Block>): set<string> {
    set i | 0 <= i < |blocks| :: HeaderText(blocks[i])
  }

  lemma TextsOfPrefix(blocks: seq<Block>, n: nat)
    requires n < |blocks|
    ensures HeaderTexts(blocks[..n]) <= HeaderTexts(blocks) && HeaderText(blocks[n]) in HeaderTexts(blocks)
  {
    forall s | s in HeaderTexts(blocks[..n]) ensures s in HeaderTexts(blocks) {
      var i :| 0 <= i < n && s == HeaderText(blocks[..n][i]);
      assert s == HeaderText(blocks[i]);
    }
  }

  lemma LastHeaderBinds(H: HashFunction, texts: set<string>, b: Block, c: Block)
    requires InjectiveOn(H, texts) && HeaderText(b) in texts && HeaderText(c) in texts
    requires b.hash == Recomputed(H, b) && c.hash == Recomputed(H, c) && b.hash == c.hash
    requires AllFree('|', [b.prevHash, b.merkleRoot, b.ts])
    ensures SameHeader(b, c)
  {
    var fs := BlockFields(b.idx, b.prevHash, b.merkleRoot, b.ts, b.nonce);
    var gs := BlockFields(c.idx, c.prevHash, c.merkleRoot, c.ts, c.nonce);
    forall i | 0 <= i < 5 ensures Free('|', fs[i]) {
      if 0 < i < 4 { assert fs[i] == [b.prevHash, b.merkleRoot, b.ts][i - 1]; }
    }
    EqualHashes(H, texts, '|', fs, gs);
    assert fs[0] == gs[0] && fs[1] == gs[1] && fs[2] == gs[2] && fs[3] == gs[3] && fs[4] == gs[4];
    DecimalInjective(b.idx, c.idx);
    DecimalInjective(b.nonce, c.nonce);
  }

  /** What the last block of a verifying chain and the chain before it satisfy. */
  ghost predicate LastBlockOk(H: HashFunction, texts: set<string>, blocks: seq<Block>, b: Block, before: seq<Block>) {
    && HeadersVerify(H, before) && HeaderTexts(before) <= texts && HeaderText(b) in texts
    && b.prevHash == TipHash(before) && b.hash == Recomputed(H, b) == TipHash(blocks)
    && Free('|', b.prevHash)
  }

  lemma LastBlock(H: HashFunction, texts: set<string>, blocks: seq<Block>, n: nat)
    requires GivesDigests(H) && |blocks| == n + 1 && HeaderTexts(blocks) <= texts && HeadersVerify(H, blocks)
    ensures LastBlockOk(H, texts, blocks, blocks[n], blocks[..n])
  {
    assert HeaderOk(H, blocks, n);
    HeadersOfPrefix(H, blocks, n);
    TipIsClean(H, blocks[..n]);
    TextsOfPrefix(blocks, n);
  }

  /** Two verifying chains with the same tip hash are equally long and have the same headers throughout, if one of them
      is free of bars and the hash binds what they hashed. */
  lemma {:induction false} TipHashBindsHeaders(H: HashFunction, texts: set<string>, a: seq<Block>, b: seq<Block>)
    requires GivesDigests(H) && CleanTimes(a) && CleanRoots(a)
    requires BindsTexts(H, texts) && HeaderTexts(a) <= texts && HeaderTexts(b) <= texts
    requires HeadersVerify(H, a) && HeadersVerify(H, b) && TipHash(a) == TipHash(b)
    ensures SameHeaders(a, b)
    decreases |a|
  {
    if a != [] { NotEmpty(H, texts, a); }
    if b != [] { NotEmpty(H, texts, b); }
    if a != [] {
      var n, m: nat := |a| - 1, |b| - 1;
      LastHeaders(H, texts, a, b, n, m);
      TipHashBindsHeaders(H, texts, a[..n], b[..m]);
      OneMoreHeader(a, b, n);
    }
  }

  lemma NotEmpty(H: HashFunction, texts: set<string>, blocks: seq<Block>)
    requires BindsTexts(H, texts) && HeaderTexts(blocks) <= texts && HeadersVerify(H, blocks) && blocks != []
    ensures TipHash(blocks) != Zeros(64)
  {
    assert HeaderOk(H, blocks, |blocks| - 1) && HeaderText(blocks[|blocks| - 1]) in HeaderTexts(blocks);
  }

  lemma LastHeaders(H: HashFunction, texts: set<string>, a: seq<Block>, b: seq<Block>, n: nat, m: nat)
    requires GivesDigests(H) && CleanTimes(a) && CleanRoots(a) && |a| == n + 1 && |b| == m + 1
    requires InjectiveOn(H, texts) && HeaderTexts(a) <= texts && HeaderTexts(b) <= texts
    requires HeadersVerify(H, a) && HeadersVerify(H, b) && TipHash(a) == TipHash(b)
    ensures SameHeader(a[n], b[m]) && TipHash(a[..n]) == TipHash(b[..m])
    ensures HeadersVerify(H, a[..n]) && HeaderTexts(a[..n]) <= texts
    ensures HeadersVerify(H, b[..m]) && HeaderTexts(b[..m]) <= texts
  {
    LastBlock(H, texts, a, n);
    LastBlock(H, texts, b, m);
    LastHeaderBinds(H, texts, a[n], b[m]);
  }

  lemma OneMoreHeader(a: seq<Block>, b: seq<Block>, n: nat)
    requires |a| == |b| == n + 1 && SameHeaders(a[..n], b[..n]) && SameHeader(a[n], b[n])
    ensures SameHeaders(a, b)
  {
    forall i | 0 <= i < n ensures SameHeader(a[i], b[i]) {
      assert a[..n][i] == a[i] && b[..n][i] == b[i];
    }
  }

  // ---------- tamper evidence: batches ----------

  predicate CleanBatches(batches: seq<seq<Txn>>) {
    forall i :: 0 <= i < |batches| ==> CleanBatch(batches[i])
  }

  predicate CleanTxn(t: Txn) {
    Free(':', t.id) && Free(':', t.ttype)
  }

  predicate CleanBatch(batch: seq<Txn>) {
    forall k :: 0 <= k < |batch| ==> CleanTxn(batch[k])
  }

  /** What a leaf hashes agrees: id, type and amount. */
  predicate SameContent(t: Txn, u: Txn) {
    t.id == u.id && t.ttype == u.ttype && t.amount == u.amount
  }

  predicate SameBatch(x: seq<Txn>, y: seq<Txn>) {
    |x| == |y| && forall k :: 0 <= k < |x| ==> SameContent(x[k], y[k])
  }

  /** Both batches are empty, or their trees are equally deep and hold the same content at every place. */
  predicate SamePadded(x: seq<Txn>, y: seq<Txn>) {
    if x == [] || y == [] then x == y
    else
      && Depth(|x|) == Depth(|y|)
      && forall k :: 0 <= k < Pow2(Depth(|x|)) ==> SameContent(Pad(Depth(|x|), x)[k], Pad(Depth(|y|), y)[k])
  }

  /** The primary key of the transactions table. */
  predicate DistinctIds(batch: seq<Txn>) {
    forall i, j :: 0 <= i < j < |batch| ==> batch[i].id != batch[j].id
  }

  function LeafText(t: Txn): string {
    Join(':', ["txn", t.id, t.ttype, FixedTwo(t.amount)])
  }

  function LeafTexts(batch: seq<Txn>): set<string> {
    set k | 0 <= k < |batch| :: LeafText(batch[k])
  }

  /** The texts hashed for the Merkle root of a batch. */
  function BatchTexts(H: HashFunction, batch: seq<Txn>): set<string> {
    LeafTexts(batch) + RootTexts(H, Leaves(H, batch))
  }

  function ChainTexts(H: HashFunction, batches: seq<seq<Txn>>): set<string> {
    if batches == [] then {} else ChainTexts(H, batches[..|batches| - 1]) + BatchTexts(H, batches[|batches| - 1])
  }

  lemma {:induction false} BatchTextsIncluded(H: HashFunction, batches: seq<seq<Txn>>, i: nat)
    requires i < |batches|
    ensures BatchTexts(H, batches[i]) <= ChainTexts(H, batches)
  {
    if i < |batches| - 1 { BatchTextsIncluded(H, batches[..|batches| - 1], i); }
  }

  lemma LeafBinds(H: HashFunction, texts: set<string>, t: Txn, u: Txn)
    requires CleanTxn(t) && InjectiveOn(H, texts) && LeafText(t) in texts && LeafText(u) in texts
    requires H(LeafText(t)) == H(LeafText(u))
    ensures SameContent(t, u)
  {
    var fs, gs := ["txn", t.id, t.ttype, FixedTwo(t.amount)], ["txn", u.id, u.ttype, FixedTwo(u.amount)];
    forall i | 0 <= i < 4 ensures Free(':', fs[i]) {}
    EqualHashes(H, texts, ':', fs, gs);
    assert fs[1] == gs[1] && fs[2] == gs[2] && fs[3] == gs[3];
    FixedTwoInjective(t.amount, u.amount);
  }

  lemma LeafTextStart(t: Txn)
    ensures |LeafText(t)| > 0 && LeafText(t)[0] == 't'
  {
    assert LeafText(t)[0] == "txn"[0];
  }

  ghost predicate IsLeafHash(H: HashFunction, x: string, texts: set<string>) {
    exists u: Txn :: LeafText(u) in texts && x == H(LeafText(u))
  }

  /** A tree whose leaves are hashes of transactions. */
  ghost predicate LeafHashes(H: HashFunction, t: Tree<string>, texts: set<string>) {
    match t
    case Leaf(x) => IsLeafHash(H, x, texts)
    case Node(l, r) => LeafHashes(H, l, texts) && LeafHashes(H, r, texts)
  }

  lemma {:induction false} TreeOfLeafHashes(H: HashFunction, d: nat, leaves: seq<string>, texts: set<string>)
    requires 0 < |leaves| <= Pow2(d)
    requires forall k :: 0 <= k < |leaves| ==> IsLeafHash(H, leaves[k], texts)
    ensures LeafHashes(H, TreeOf(d, leaves), texts)
  {
    if d > 0 {
      var h := Pow2(d - 1);
      if |leaves| <= h {
        TreeOfLeafHashes(H, d - 1, leaves, texts);
      } else {
        TreeOfLeafHashes(H, d - 1, leaves[..h], texts);
        TreeOfLeafHashes(H, d - 1, leaves[h..], texts);
      }
    }
  }

  lemma HashIsDigest(H: HashFunction, t: Tree<string>, texts: set<string>)
    requires GivesDigests(H) && LeafHashes(H, t, texts)
    ensures IsDigest(HashOf(H, t))
  {
  }

  /** A hashed transaction never passes for a hashed pair of nodes: its text starts with a letter that no digest has.
      So trees over transactions with the same hash are equally deep. */
  lemma {:induction false} SameDepth(H: HashFunction, texts: set<string>, d: nat, s: Tree<string>, e: nat,
                                     t: Tree<string>)
    requires GivesDigests(H) && InjectiveOn(H, texts) && Perfect(s, d) && Perfect(t, e)
    requires LeafHashes(H, s, texts) && LeafHashes(H, t, texts) && TextsOf(H, s) <= texts && TextsOf(H, t) <= texts
    requires HashOf(H, s) == HashOf(H, t)
    ensures d == e
    decreases d + e
  {
    if d == 0 && e > 0 {
      LeafIsNoNode(H, texts, s.value, t.left, t.right);
    } else if d > 0 && e == 0 {
      LeafIsNoNode(H, texts, t.value, s.left, s.right);
    } else if d > 0 {
      var x, y := HashOf(H, s.left) + HashOf(H, s.right), HashOf(H, t.left) + HashOf(H, t.right);
      assert x in TextsOf(H, s) && y in TextsOf(H, t);
      HashIsDigest(H, s.left, texts);
      HashIsDigest(H, t.left, texts);
      SplitDigests(HashOf(H, s.left), HashOf(H, s.right), HashOf(H, t.left), HashOf(H, t.right));
      SameDepth(H, texts, d - 1, s.left, e - 1, t.left);
    }
  }

  lemma LeafIsNoNode(H: HashFunction, texts: set<string>, leaf: string, l: Tree<string>, r: Tree<string>)
    requires GivesDigests(H) && InjectiveOn(H, texts) && LeafHashes(H, Leaf(leaf), texts)
    requires LeafHashes(H, l, texts) && HashOf(H, l) + HashOf(H, r) in texts
    ensures leaf != H(HashOf(H, l) + HashOf(H, r))
  {
    var u: Txn :| LeafText(u) in texts && leaf == H(LeafText(u));
    LeafTextStart(u);
    HashIsDigest(H, l, texts);
    assert (HashOf(H, l) + HashOf(H, r))[0] == HashOf(H, l)[0];
  }

  lemma LeavesAreHashes(H: HashFunction, x: seq<Txn>, texts: set<string>)
    requires GivesDigests(H) && LeafTexts(x) <= texts
    ensures AllLength64(Leaves(H, x))
    ensures forall k :: 0 <= k < |x| ==> IsLeafHash(H, Leaves(H, x)[k], texts)
  {
    forall k | 0 <= k < |x| ensures IsLeafHash(H, Leaves(H, x)[k], texts) {
      assert LeafText(x[k]) in LeafTexts(x) && Leaves(H, x)[k] == H(LeafText(x[k]));
    }
  }

  /** The root of a batch that is not empty is the hash of one of its texts, and so never the root of the empty one. */
  lemma RootOfSome(H: HashFunction, texts: set<string>, x: seq<Txn>)
    requires x != [] && BindsTexts(H, texts) && BatchTexts(H, x) <= texts
    ensures Root(H, Leaves(H, x)) != Zeros(64)
  {
    var leaves := Leaves(H, x);
    RootIsTreeHash(H, leaves);
    if |x| == 1 {
      assert LeafText(x[0]) in LeafTexts(x) && Root(H, leaves) == leaves[0] == H(LeafText(x[0]));
    } else {
      var t := TreeOf(Depth(|leaves|), leaves);
      TreeOfIsPerfect(Depth(|leaves|), leaves);
      assert t.Node? && HashOf(H, t.left) + HashOf(H, t.right) in TextsOf(H, t);
    }
  }

  lemma PadOfLeaves(H: HashFunction, d: nat, x: seq<Txn>)
    requires 0 < |x| <= Pow2(d)
    ensures Pad(d, Leaves(H, x)) == Leaves(H, Pad(d, x))
  {
  }

  /** Exactly when two batches have the same root: when they pad to the same content. One of them must be free of
      colons; the other may contain anything and be of any size. */
  lemma BatchRootsIff(H: HashFunction, texts: set<string>, x: seq<Txn>, y: seq<Txn>)
    requires GivesDigests(H) && CleanBatch(x)
    requires BindsTexts(H, texts) && BatchTexts(H, x) <= texts && BatchTexts(H, y) <= texts
    ensures Root(H, Leaves(H, x)) == Root(H, Leaves(H, y)) <==> SamePadded(x, y)
  {
    if x == [] || y == [] {
      if x != [] { RootOfSome(H, texts, x); }
      if y != [] { RootOfSome(H, texts, y); }
    } else {
      if Root(H, Leaves(H, x)) == Root(H, Leaves(H, y)) {
        RootsSameDepth(H, texts, x, y, Depth(|x|), Depth(|y|), Root(H, Leaves(H, x)));
        SameRootSamePadded(H, texts, Depth(|x|), x, y);
      }
      if SamePadded(x, y) { SamePaddedSameRoot(H, Depth(|x|), x, y); }
    }
  }

  lemma RootsSameDepth(H: HashFunction, texts: set<string>, x: seq<Txn>, y: seq<Txn>, d: nat, e: nat, root: string)
    requires GivesDigests(H) && InjectiveOn(H, texts) && BatchTexts(H, x) <= texts && BatchTexts(H, y) <= texts
    requires x != [] && y != [] && d == Depth(|x|) && e == Depth(|y|)
    requires root == Root(H, Leaves(H, x)) && root == Root(H, Leaves(H, y))
    ensures d == e
  {
    var s := BatchTree(H, texts, x, d, root);
    DepthOfBatch(H, texts, d, s, y, e, root);
  }

  lemma DepthOfBatch(H: HashFunction, texts: set<string>, d: nat, s: Tree<string>, y: seq<Txn>, e: nat, root: string)
    requires GivesDigests(H) && InjectiveOn(H, texts) && HashedTree(H, texts, d, s, root)
    requires y != [] && BatchTexts(H, y) <= texts && e == Depth(|y|) && root == Root(H, Leaves(H, y))
    ensures d == e
  {
    var t := BatchTree(H, texts, y, e, root);
    TreesSameDepth(H, texts, d, s, e, t, root);
  }

  ghost predicate HashedTree(H: HashFunction, texts: set<string>, d: nat, t: Tree<string>, root: string) {
    Perfect(t, d) && LeafHashes(H, t, texts) && TextsOf(H, t) <= texts && HashOf(H, t) == root
  }

  lemma TreesSameDepth(H: HashFunction, texts: set<string>, d: nat, s: Tree<string>, e: nat, t: Tree<string>,
                       root: string)
    requires GivesDigests(H) && InjectiveOn(H, texts) && HashedTree(H, texts, d, s, root)
    requires HashedTree(H, texts, e, t, root)
    ensures d == e
  {
    SameDepth(H, texts, d, s, e, t);
  }

  lemma BatchTree(H: HashFunction, texts: set<string>, x: seq<Txn>, d: nat, root: string) returns (t: Tree<string>)
    requires GivesDigests(H) && x != [] && d == Depth(|x|) && BatchTexts(H, x) <= texts && root == Root(H, Leaves(H, x))
    ensures HashedTree(H, texts, d, t, root)
  {
    var leaves := Leaves(H, x);
    RootIsTreeHash(H, leaves);
    LeavesAreHashes(H, x, texts);
    TreeOfIsPerfect(d, leaves);
    TreeOfLeafHashes(H, d, leaves, texts);
    t := TreeOf(d, leaves);
  }

  lemma SameRootSamePadded(H: HashFunction, texts: set<string>, d: nat, x: seq<Txn>, y: seq<Txn>)
    requires GivesDigests(H) && CleanBatch(x) && InjectiveOn(H, texts) && BatchTexts(H, x) <= texts
    requires BatchTexts(H, y) <= texts
    requires x != [] && y != [] && d == Depth(|x|) == Depth(|y|) && Root(H, Leaves(H, x)) == Root(H, Leaves(H, y))
    ensures SamePadded(x, y)
  {
    LeavesAreHashes(H, x, texts);
    LeavesAreHashes(H, y, texts);
    RootsEqualIff(H, Leaves(H, x), Leaves(H, y));
    PadOfLeaves(H, d, x);
    PadOfLeaves(H, d, y);
    forall k | 0 <= k < Pow2(d) ensures SameContent(Pad(d, x)[k], Pad(d, y)[k]) {
      var t, u := Pad(d, x)[k], Pad(d, y)[k];
      assert t == x[PadIndex(d, |x|, k)] && u == y[PadIndex(d, |y|, k)];
      assert LeafText(t) in LeafTexts(x) && LeafText(u) in LeafTexts(y);
      assert Leaves(H, Pad(d, x))[k] == Leaves(H, Pad(d, y))[k];
      LeafBinds(H, texts, t, u);
    }
  }

  lemma SamePaddedSameRoot(H: HashFunction, d: nat, x: seq<Txn>, y: seq<Txn>)
    requires x != [] && y != [] && d == Depth(|x|) && SamePadded(x, y)
    ensures Root(H, Leaves(H, x)) == Root(H, Leaves(H, y))
  {
    RootIsTreeHash(H, Leaves(H, x));
    RootIsTreeHash(H, Leaves(H, y));
    PadOfLeaves(H, d, x);
    PadOfLeaves(H, d, y);
    assert Leaves(H, Pad(d, x)) == Leaves(H, Pad(d, y));
    SameTreeIff(d, Leaves(H, x), Leaves(H, y));
  }

  /** For batches with distinct ids, padding to the same content is having the same content. */
  lemma PaddedIsSame(x: seq<Txn>, y: seq<Txn>)
    requires DistinctIds(x) && DistinctIds(y)
    ensures SamePadded(x, y) <==> SameBatch(x, y)
  {
    if x != [] && y != [] && SamePadded(x, y) {
      var d := Depth(|x|);
      forall k | 0 <= k < |x| && k < |y| ensures SameContent(x[k], y[k]) {
        assert SameContent(Pad(d, x)[k], Pad(d, y)[k]);
      }
      if |x| < |y| { LongerRepeats(d, x, y); }
      if |y| < |x| { LongerRepeats(d, y, x); }
    }
  }

  /** Beyond the shorter batch the longer one would have to repeat an id. */
  lemma LongerRepeats(d: nat, x: seq<Txn>, y: seq<Txn>)
    requires 0 < |x| < |y| <= Pow2(d)
    requires forall k :: 0 <= k < Pow2(d) ==> Pad(d, x)[k].id == Pad(d, y)[k].id
    ensures !DistinctIds(y)
  {
    var k := |x|;
    var i := PadIndex(d, |x|, k);
    assert Pad(d, x)[k] == x[i] && Pad(d, x)[i] == x[i];
    assert Pad(d, y)[k] == y[k] && Pad(d, y)[i] == y[i];
  }

  // ---------- tamper evidence: the chain ----------

  /** Block i records the root of batch i. */
  predicate RootsRecorded(H: HashFunction, blocks: seq<Block>, batches: seq<seq<Txn>>) {
    && |blocks| == |batches|
    && forall i :: 0 <= i < |blocks| ==> blocks[i].merkleRoot == Root(H, Leaves(H, batches[i]))
  }

  /** Recomputing the roots from other batches reproduces the recorded ones exactly when each pads to the same
      content. */
  lemma RecomputedRootsIff(H: HashFunction, blocks: seq<Block>, batches: seq<seq<Txn>>, cut: seq<seq<Txn>>)
    requires GivesDigests(H) && RootsRecorded(H, blocks, batches) && CleanBatches(batches) && |cut| == |batches|
    requires BindsTexts(H, ChainTexts(H, batches) + ChainTexts(H, cut))
    ensures RootsRecorded(H, blocks, cut) <==> forall i :: 0 <= i < |cut| ==> SamePadded(batches[i], cut[i])
  {
    var texts := ChainTexts(H, batches) + ChainTexts(H, cut);
    forall i | 0 <= i < |cut|
      ensures Root(H, Leaves(H, batches[i])) == Root(H, Leaves(H, cut[i])) <==> SamePadded(batches[i], cut[i])
    {
      BatchTextsIncluded(H, batches, i);
      BatchTextsIncluded(H, cut, i);
      BatchRootsIff(H, texts, batches[i], cut[i]);
    }
  }

  /** Every row with other accounts, fee, description and so on. */
  function WithColumns(batch: seq<Txn>, columns: Txn -> Columns): (b: seq<Txn>)
    ensures |b| == |batch|
  {
    seq(|batch|, k requires 0 <= k < |batch| => batch[k].(columns := columns(batch[k])))
  }

  /** A check that recomputes the roots passes as before, whatever is written into those columns. */
  lemma ColumnsAreUnbound(H: HashFunction, blocks: seq<Block>, batches: seq<seq<Txn>>, cut: seq<seq<Txn>>,
                          columns: Txn -> Columns)
    requires |cut| == |batches| && forall i :: 0 <= i < |batches| ==> cut[i] == WithColumns(batches[i], columns)
    ensures RootsRecorded(H, blocks, cut) <==> RootsRecorded(H, blocks, batches)
  {
    forall i | 0 <= i < |batches| ensures Leaves(H, cut[i]) == Leaves(H, batches[i]) {}
  }

  lemma RootIsClean(H: HashFunction, x: seq<Txn>)
    requires GivesDigests(H)
    ensures Free('|', Root(H, Leaves(H, x)))
  {
    if x != [] {
      var d, xs := Depth(|x|), Leaves(H, x);
      RootIsTreeHash(H, xs);
      LeavesAreHashes(H, x, LeafTexts(x));
      TreeOfLeafHashes(H, d, xs, LeafTexts(x));
      HashIsDigest(H, TreeOf(d, xs), LeafTexts(x));
    }
  }

  /** The ledger's promise for transactions, with the roots recomputed from the rows: two verifying chains with the same
      tip hash are equally long, have the same headers, and hold rows with the same ids, types and amounts in every
      block, if one of them is free of separators, ids are distinct and the hash binds what the two chains hashed. */
  lemma TipHashBindsTransactions(H: HashFunction, a: seq<Block>, x: seq<seq<Txn>>, b: seq<Block>, y: seq<seq<Txn>>)
    requires GivesDigests(H) && RootsRecorded(H, a, x) && RootsRecorded(H, b, y)
    requires CleanTimes(a) && CleanBatches(x)
    requires forall i :: 0 <= i < |x| ==> DistinctIds(x[i])
    requires forall i :: 0 <= i < |y| ==> DistinctIds(y[i])
    requires BindsTexts(H, HeaderTexts(a) + HeaderTexts(b) + ChainTexts(H, x) + ChainTexts(H, y))
    requires HeadersVerify(H, a) && HeadersVerify(H, b) && TipHash(a) == TipHash(b)
    ensures SameHeaders(a, b) && |x| == |y| && forall i :: 0 <= i < |x| ==> SameBatch(x[i], y[i])
  {
    var texts := HeaderTexts(a) + HeaderTexts(b) + ChainTexts(H, x) + ChainTexts(H, y);
    forall i | 0 <= i < |a| ensures Free('|', a[i].merkleRoot) { RootIsClean(H, x[i]); }
    TipHashBindsHeaders(H, texts, a, b);
    forall i | 0 <= i < |x| ensures SameBatch(x[i], y[i]) {
      assert SameHeader(a[i], b[i]);
      BatchTextsIncluded(H, x, i);
      BatchTextsIncluded(H, y, i);
      BatchRootsIff(H, texts, x[i], y[i]);
      PaddedIsSame(x[i], y[i]);
    }
  }
}
