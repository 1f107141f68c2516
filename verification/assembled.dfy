/** An assembled block is one that connects: what CreateNewBlock (src/miner.cpp) collects against mapTestPool, with a
    coinbase in front and stored in the block files, passes the loop of ConnectBlock (src/main.cpp), with the fees
    that were added up. */
module Assembled {
  import opened Transactions
  import opened TxIndex
  import opened Miner
  import opened Supply
  import Blocks
  import Rules

  // ---------------------------------------------------------------- two indexes of one chain

  /** The record of a transaction while the block is assembled and while it is connected: the same outputs are
      unspent, and it leads to the same transaction. */
  ghost predicate LikeEntry(s: Setting, src: Source, h: Hash, e: Entry, f: Entry) {
    && |e.spent| == |f.spent|
    && (forall i :: 0 <= i < |e.spent| ==> (e.spent[i] == NullPos <==> f.spent[i] == NullPos))
    && f.pos != MEMPOOL_POS && f.pos in src.disk
    && if e.pos == MEMPOOL_POS
       then h in s.pool && !s.pool[h].IsCoinBase() && !s.pool[h].IsCoinStake() && src.disk[f.pos] == s.pool[h]
       else f.pos == e.pos && e.pos in s.disk && src.disk[f.pos] == s.disk[e.pos]
  }

  /** All that the index of the assembly knows, the other knows alike. */
  ghost predicate Like(s: Setting, src: Source, w: TxMap, v: TxMap) {
    forall h {:trigger LikeAt(s, src, w, v, h)} :: LikeAt(s, src, w, v, h)
  }

  ghost predicate LikeAt(s: Setting, src: Source, w: TxMap, v: TxMap, h: Hash) {
    h in w ==> h in v && LikeEntry(s, src, h, w[h], v[h])
  }

  /** Both use the same tests, and maturity is a matter of the position. */
  ghost predicate SameChecks(s: Setting, checks: Checks) {
    && checks.signatureOk == s.checks.signatureOk && checks.immature == s.checks.immature
    && forall e: Entry, f: Entry {:trigger checks.immature(e), checks.immature(f)} ::
         e.pos == f.pos ==> checks.immature(e) == checks.immature(f)
  }

  lemma LikeInput(s: Setting, src: Source, w: TxMap, v: TxMap, tx: Tx, checks: Checks, i: nat)
    requires Like(s, src, w, v) && SameChecks(s, checks) && i < |tx.vin|
    requires Rules.InputFine(w, Src(s), tx, s.checks, i)
    ensures Rules.InputFine(v, src, tx, checks, i)
    ensures PrevValue(v, src, tx.vin[i]) == PrevValue(w, Src(s), tx.vin[i])
  {
    var h := tx.vin[i].hash;
    assert LikeAt(s, src, w, v, h);
  }

  lemma {:induction false} LikeValue(s: Setting, src: Source, w: TxMap, v: TxMap, tx: Tx, checks: Checks, k: nat)
    requires Like(s, src, w, v) && SameChecks(s, checks) && k <= |tx.vin|
    requires forall i :: 0 <= i < |tx.vin| ==> Rules.InputFine(w, Src(s), tx, s.checks, i)
    ensures InTo(v, src, tx.vin, k) == InTo(w, Src(s), tx.vin, k)
  {
    if k > 0 {
      LikeValue(s, src, w, v, tx, checks, k - 1);
      LikeInput(s, src, w, v, tx, checks, k - 1);
    }
  }

  /** A transaction that connects while the block is assembled connects in the block too, with the same value. */
  lemma LikeTx(s: Setting, src: Source, w: TxMap, v: TxMap, tx: Tx, checks: Checks)
    requires Like(s, src, w, v) && SameChecks(s, checks) && !tx.IsCoinBase() && TxOk(w, Src(s), tx, s.checks)
    ensures TxOk(v, src, tx, checks) && ValueIn(v, src, tx) == ValueIn(w, Src(s), tx)
  {
    Rules.ConnectsExactly(w, Src(s), tx, s.checks);
    Rules.ConnectsExactly(v, src, tx, checks);
    LikeValue(s, src, w, v, tx, checks, |tx.vin|);
    forall i | 0 <= i < |tx.vin| ensures Rules.InputFine(v, src, tx, checks, i) {
      LikeInput(s, src, w, v, tx, checks, i);
    }
  }

  lemma LikeMark(s: Setting, src: Source, h: Hash, e: Entry, f: Entry, outs: set<OutPoint>, pos: DiskPos)
    requires LikeEntry(s, src, h, e, f) && pos != NullPos
    ensures LikeEntry(s, src, h, MarkEntry(e, h, outs, MEMPOOL_POS), MarkEntry(f, h, outs, pos))
  {
  }

  /** Connecting it keeps the two alike. */
  lemma LikeStep(s: Setting, src: Source, w: TxMap, v: TxMap, tx: Tx, pos: DiskPos)
    requires Like(s, src, w, v) && Eligible(s, tx.id) && s.pool[tx.id] == tx
    requires pos != NullPos && pos != MEMPOOL_POS && pos in src.disk && src.disk[pos] == tx
    ensures Like(s, src, ConnectTx(w, tx, MEMPOOL_POS), ConnectTx(v, tx, pos))
  {
    var w', v', outs := ConnectTx(w, tx, MEMPOOL_POS), ConnectTx(v, tx, pos), OutPoints(tx.vin);
    forall h ensures LikeAt(s, src, w', v', h) {
      assert LikeAt(s, src, w, v, h);
      if h in w && h != tx.id {
        LikeMark(s, src, h, w[h], v[h], outs, pos);
      }
    }
  }

  /** The coinbase adds a record that the assembly does not know. */
  lemma LikeStart(s: Setting, src: Source, coinbase: Tx, pos: DiskPos)
    requires Consistent(s.chain, s.disk) && Kept(s.disk, src.disk) && coinbase.IsCoinBase() && coinbase.id !in s.chain
    ensures Like(s, src, s.chain, ConnectTx(s.chain, coinbase, pos))
  {
    forall h ensures LikeAt(s, src, s.chain, ConnectTx(s.chain, coinbase, pos), h) {
    }
  }

  ghost predicate Kept(disk: map<DiskPos, Tx>, disk': map<DiskPos, Tx>) {
    forall p :: p in disk ==> p in disk' && disk'[p] == disk[p]
  }

  // ---------------------------------------------------------------- the block

  /** The assembled transactions behind a new coinbase lie in the files, and the tests of ConnectBlock are those of
      the assembly. */
  ghost predicate Placed(s: Setting, src: Source, block: seq<Tx>, coinbase: Tx, at: Blocks.Location, checks: Checks) {
    && Consistent(s.chain, s.disk) && Kept(s.disk, src.disk) && Stored(src.disk, [coinbase] + block, at)
    && coinbase.IsCoinBase() && coinbase.id !in s.chain && OutputsInRange(coinbase.vout)
    && SameChecks(s, checks) && forall i: nat :: checks.sigOpsOk(i)
  }

  /** After `n` of the assembled transactions: the two indexes are alike, ConnectBlock has gone on, and it has added
      up the same fees. */
  ghost predicate Follows(s: Setting, src: Source, block: seq<Tx>, vtx: seq<Tx>, at: Blocks.Location, checks: Checks,
                          n: nat) {
    && n <= |block| && n < |vtx|
    && Like(s, src, After(s, block, n), Blocks.ConnectAll(s.chain, vtx, at, n + 1))
    && Blocks.TxsOk(s.chain, src, vtx, at, checks, n + 1)
    && Blocks.After(s.chain, src, vtx, at, n + 1).fees == FeesTo(s, block, n)
  }

  lemma FirstConnects(s: Setting, src: Source, block: seq<Tx>, vtx: seq<Tx>, coinbase: Tx, at: Blocks.Location,
                      checks: Checks)
    requires Consistent(s.chain, s.disk) && Kept(s.disk, src.disk) && vtx != [] && vtx[0] == coinbase
    requires coinbase.IsCoinBase() && coinbase.id !in s.chain && OutputsInRange(coinbase.vout) && checks.sigOpsOk(0)
    ensures Follows(s, src, block, vtx, at, checks, 0)
  {
    assert Blocks.TxsOk(s.chain, src, vtx, at, checks, 0);
    assert Blocks.After(s.chain, src, vtx, at, 0) == Blocks.Totals(s.chain, 0, 0, 0, 0);
    assert Blocks.ConnectAll(s.chain, vtx, at, 0) == s.chain;
    LikeStart(s, src, coinbase, Blocks.TxPos(at, vtx, 0));
  }

  lemma FirstFollows(s: Setting, src: Source, block: seq<Tx>, vtx: seq<Tx>, coinbase: Tx, at: Blocks.Location,
                     checks: Checks)
    requires Placed(s, src, block, coinbase, at, checks) && vtx == [coinbase] + block
    ensures Follows(s, src, block, vtx, at, checks, 0)
  {
    FirstConnects(s, src, block, vtx, coinbase, at, checks);
  }

  lemma NextConnects(s: Setting, src: Source, block: seq<Tx>, vtx: seq<Tx>, coinbase: Tx, at: Blocks.Location,
                     checks: Checks, m: nat, n: nat)
    requires Placed(s, src, block, coinbase, at, checks) && FromPool(s, block) && AllConnect(s, block, |block|)
    requires vtx == [coinbase] + block && n == m + 1 <= |block| && Follows(s, src, block, vtx, at, checks, m)
    ensures Follows(s, src, block, vtx, at, checks, n)
  {
    var tx, pos := block[m], Blocks.TxPos(at, vtx, n);
    var w, v := After(s, block, m), Blocks.ConnectAll(s.chain, vtx, at, n);
    assert vtx[n] == tx;
    assert Eligible(s, block[m].id);
    assert Connects(s, block, m);
    Blocks.TxOffsetPastHeader(vtx, n);
    Blocks.AfterView(s.chain, src, vtx, at, n);
    LikeTx(s, src, w, v, tx, checks);
    LikeStep(s, src, w, v, tx, pos);
  }

  lemma {:induction false} AllFollow(s: Setting, src: Source, block: seq<Tx>, vtx: seq<Tx>, coinbase: Tx,
                                     at: Blocks.Location, checks: Checks, n: nat)
    requires Placed(s, src, block, coinbase, at, checks) && FromPool(s, block) && AllConnect(s, block, |block|)
    requires vtx == [coinbase] + block && n <= |block|
    ensures Follows(s, src, block, vtx, at, checks, n)
    decreases n
  {
    if n == 0 {
      FirstFollows(s, src, block, vtx, coinbase, at, checks);
    } else {
      AllFollow(s, src, block, vtx, coinbase, at, checks, n - 1);
      NextConnects(s, src, block, vtx, coinbase, at, checks, n - 1, n);
    }
  }

  /** The assembled block connects exactly if it passes the context-free rules and its coinbase takes no more than the
      reward with the fees of the draft. */
  lemma AssembledConnects(s: Setting, src: Source, d: Draft, coinbase: Tx, b: Blocks.Block, cx: Blocks.Context,
                          checks: Checks)
    requires DraftOk(s, d) && b.vtx == [coinbase] + d.block && Placed(s, src, d.block, coinbase, cx.at, checks)
    ensures Blocks.ConnectOk(s.chain, src, b, cx, checks) <==>
      && Blocks.CheckBlock(b) && checks.blockOk
      && ValueOut(coinbase.vout) <= Blocks.GetProofOfWorkReward(cx.height, d.fees, cx.bestSupply)
  {
    AllFollow(s, src, d.block, b.vtx, coinbase, cx.at, checks, |d.block|);
    if b.IsProofOfStake() {
      assert Eligible(s, d.block[0].id);
    }
  }
}
