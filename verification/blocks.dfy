/** Connecting a block to the transaction index and disconnecting it again
    (CBlock::CheckBlock, ConnectBlock and DisconnectBlock in src/main.cpp; the reward
    functions in src/blockparams.cpp). */
module Blocks {
  import opened Transactions
  import opened TxIndex

  datatype Block = Block(hash: Hash, prev: Hash, vtx: seq<Tx>) {
    predicate IsProofOfStake() {
      |vtx| > 1 && vtx[1].IsCoinStake()
    }
  }

  function Ids(vtx: seq<Tx>): set<Hash> {
    set i | 0 <= i < |vtx| :: vtx[i].id
  }

  // ---------------------------------------------------------------- context-free rules

  predicate CheckTransaction(tx: Tx) {
    && tx.vin != [] && tx.vout != []
    && (forall i :: 0 <= i < |tx.vout| && tx.vout[i].IsEmpty() ==> tx.IsCoinBase() || tx.IsCoinStake())
    && OutputsInRange(tx.vout)
    && NoDuplicates(tx.vin)
    && (tx.IsCoinBase() ==> 2 <= |tx.script| <= 100)
    && (!tx.IsCoinBase() ==> forall i :: 0 <= i < |tx.vin| ==> !tx.vin[i].IsNull())
  }

  predicate DistinctIds(vtx: seq<Tx>) {
    forall i, j :: 0 <= i < j < |vtx| ==> vtx[i].id != vtx[j].id
  }

  predicate CheckBlock(b: Block) {
    && b.vtx != []
    && b.vtx[0].IsCoinBase()
    && (forall i :: 1 <= i < |b.vtx| ==> !b.vtx[i].IsCoinBase())
    && (b.IsProofOfStake() ==>
          && |b.vtx[0].vout| == 1 && b.vtx[0].vout[0].IsEmpty()
          && forall i :: 2 <= i < |b.vtx| ==> !b.vtx[i].IsCoinStake())
    && (forall i :: 0 <= i < |b.vtx| ==> CheckTransaction(b.vtx[i]))
    && DistinctIds(b.vtx)
  }

  // ---------------------------------------------------------------- rewards

  const BLOCK_STANDARD_REWARD: int := 5 * COIN
  const BLOCK_REWARD_RESERVE: int := 140000 * COIN
  const RESERVE_PHASE_START: int := 1

  function GetProofOfWorkReward(height: int, fees: int, bestSupply: int): int {
    if height > RESERVE_PHASE_START then
      (if bestSupply < BLOCK_REWARD_RESERVE * 100 then BLOCK_REWARD_RESERVE else BLOCK_STANDARD_REWARD) + fees
    else if bestSupply > MAX_SINGLE_TX then fees
    else BLOCK_STANDARD_REWARD + fees
  }

  /** `prevHeight` is the height of the block before the one that is paid. */
  function GetProofOfStakeReward(prevHeight: int, fees: int, bestSupply: int): int {
    if prevHeight + 1 > RESERVE_PHASE_START then
      (if bestSupply < BLOCK_REWARD_RESERVE * 100 then BLOCK_REWARD_RESERVE else BLOCK_STANDARD_REWARD) + fees
    else if bestSupply > MAX_SINGLE_TX then fees
    else BLOCK_STANDARD_REWARD + fees
  }

  // ---------------------------------------------------------------- positions

  /** Where a block starts: nFile and nBlockPos of its CBlockIndex. */
  datatype Location = Location(file: nat, pos: nat)

  function CompactSizeLength(n: nat): nat {
    if n < 253 then 1 else if n <= 0xffff then 3 else if n <= 0xffff_ffff then 5 else 9
  }

  /** Distance of transaction `i` from the start of its block: an 80-byte header, the
      transaction count, then the transactions one after another. */
  function TxOffset(vtx: seq<Tx>, i: nat): nat
    requires i <= |vtx|
  {
    if i == 0 then 80 + CompactSizeLength(|vtx|) else TxOffset(vtx, i - 1) + vtx[i - 1].size
  }

  lemma {:induction false} TxOffsetPastHeader(vtx: seq<Tx>, i: nat)
    requires i <= |vtx|
    ensures TxOffset(vtx, i) > 80
  {
    if i > 0 {
      TxOffsetPastHeader(vtx, i - 1);
    }
  }

  function TxPos(at: Location, vtx: seq<Tx>, i: nat): DiskPos
    requires i <= |vtx|
  {
    Pos(at.file, at.pos, at.pos + TxOffset(vtx, i))
  }

  // ---------------------------------------------------------------- the block as a function on the index

  /** What ConnectBlock has accumulated after some transactions. */
  datatype Totals = Totals(view: TxMap, valueIn: int, valueOut: int, fees: int, stakeReward: int)

  function Step(t: Totals, src: Source, tx: Tx, pos: DiskPos): Totals {
    var txIn, txOut := ValueIn(t.view, src, tx), ValueOut(tx.vout);
    Totals(
      ConnectTx(t.view, tx, pos),
      t.valueIn + txIn,
      t.valueOut + txOut,
      t.fees + (if tx.IsCoinBase() || tx.IsCoinStake() then 0 else txIn - txOut),
      if tx.IsCoinStake() then txOut - txIn else t.stakeReward)
  }

  /** Totals after the first `k` transactions of a block at `at`. */
  function After(v: TxMap, src: Source, vtx: seq<Tx>, at: Location, k: nat): Totals
    requires k <= |vtx|
  {
    if k == 0 then Totals(v, 0, 0, 0, 0)
    else Step(After(v, src, vtx, at, k - 1), src, vtx[k - 1], TxPos(at, vtx, k - 1))
  }

  /** The index after the first `k` transactions of a block at `at`. */
  function ConnectAll(v: TxMap, vtx: seq<Tx>, at: Location, k: nat): TxMap
    requires k <= |vtx|
  {
    if k == 0 then v else ConnectTx(ConnectAll(v, vtx, at, k - 1), vtx[k - 1], TxPos(at, vtx, k - 1))
  }

  lemma {:induction false} AfterView(v: TxMap, src: Source, vtx: seq<Tx>, at: Location, k: nat)
    requires k <= |vtx|
    ensures After(v, src, vtx, at, k).view == ConnectAll(v, vtx, at, k)
  {
    if k > 0 {
      AfterView(v, src, vtx, at, k - 1);
    }
  }

  predicate TxsOk(v: TxMap, src: Source, vtx: seq<Tx>, at: Location, checks: Checks, k: nat)
    requires k <= |vtx|
  {
    k == 0 ||
    (TxsOk(v, src, vtx, at, checks, k - 1)
     && checks.sigOpsOk(k - 1)
     && TxOk(After(v, src, vtx, at, k - 1).view, src, vtx[k - 1], checks))
  }

  lemma {:induction false} TxsOkPrefix(v: TxMap, src: Source, vtx: seq<Tx>, at: Location, checks: Checks, k: nat,
                                       n: nat)
    requires k <= n <= |vtx|
    requires TxsOk(v, src, vtx, at, checks, n)
    ensures TxsOk(v, src, vtx, at, checks, k)
  {
    if k < n {
      TxsOkPrefix(v, src, vtx, at, checks, k, n - 1);
    }
  }

  /** The block index fields ConnectBlock reads: place and height of the block, the money
      supply recorded for its predecessor and for the best block. */
  datatype Context = Context(at: Location, height: int, prevSupply: int, bestSupply: int)

  predicate RewardOk(t: Totals, b: Block, cx: Context, checks: Checks)
    requires b.vtx != []
  {
    if b.IsProofOfStake() then
      checks.coinAgeKnown && t.stakeReward <= GetProofOfStakeReward(cx.height - 1, t.fees, cx.bestSupply)
    else
      ValueOut(b.vtx[0].vout) <= GetProofOfWorkReward(cx.height, t.fees, cx.bestSupply)
  }

  predicate ConnectOk(v: TxMap, src: Source, b: Block, cx: Context, checks: Checks) {
    && CheckBlock(b) && checks.blockOk
    && TxsOk(v, src, b.vtx, cx.at, checks, |b.vtx|)
    && RewardOk(After(v, src, b.vtx, cx.at, |b.vtx|), b, cx, checks)
  }

  /** nMint: value created by the block before fees are collected. */
  function Mint(t: Totals): int {
    t.valueOut - t.valueIn + t.fees
  }

  /** The growth of nMoneySupply. */
  function Gain(t: Totals): int {
    t.valueOut - t.valueIn
  }

  /** The index once all of a block's transactions are connected. */
  function Connected(v: TxMap, b: Block, at: Location): TxMap {
    ConnectAll(v, b.vtx, at, |b.vtx|)
  }

  /** The index after disconnecting transactions k-1 down to 0. */
  function DisconnectFrom(v: TxMap, vtx: seq<Tx>, k: nat): TxMap
    requires k <= |vtx|
    decreases k
  {
    if k == 0 then v else DisconnectFrom(DisconnectTx(v, vtx[k - 1]), vtx, k - 1)
  }

  predicate DisconnectOkFrom(v: TxMap, vtx: seq<Tx>, k: nat)
    requires k <= |vtx|
    decreases k
  {
    k == 0 || (CanRelease(v, vtx[k - 1]) && DisconnectOkFrom(DisconnectTx(v, vtx[k - 1]), vtx, k - 1))
  }

  function Disconnected(v: TxMap, b: Block): TxMap {
    DisconnectFrom(v, b.vtx, |b.vtx|)
  }

  predicate DisconnectOk(v: TxMap, b: Block) {
    DisconnectOkFrom(v, b.vtx, |b.vtx|)
  }

  lemma NotAllOk(v: TxMap, src: Source, vtx: seq<Tx>, at: Location, checks: Checks, i: nat)
    requires i < |vtx|
    requires !checks.sigOpsOk(i) || !TxOk(After(v, src, vtx, at, i).view, src, vtx[i], checks)
    ensures !TxsOk(v, src, vtx, at, checks, |vtx|)
  {
    if TxsOk(v, src, vtx, at, checks, |vtx|) {
      TxsOkPrefix(v, src, vtx, at, checks, i + 1, |vtx|);
    }
  }

  // ---------------------------------------------------------------- the source's loops

  /** The local variables of ConnectBlock. */
  datatype Running = Running(queued: TxMap, valueIn: int, valueOut: int, fees: int, stakeReward: int) {
    function Over(v: TxMap): Totals {
      Totals(v + queued, valueIn, valueOut, fees, stakeReward)
    }
  }

  /** The part of a round of ConnectBlock's loop that reads and spends the inputs. */
  method FetchAndConnect(db: TxDb, queued0: TxMap, src: Source, tx: Tx, pos: DiskPos, checks: Checks)
    returns (ok: bool, queued: TxMap, txIn: int)
    requires pos != NullPos
    ensures ok <==> FetchOk(db.View() + queued0, src, tx) && ConnectInputsOk(db.View() + queued0, src, tx, checks)
    ensures ok ==> db.View() + queued[tx.id := FreshEntry(pos, |tx.vout|)] == ConnectTx(db.View() + queued0, tx, pos)
    ensures ok ==> txIn == ValueIn(db.View() + queued0, src, tx)
  {
    ok, queued, txIn := true, queued0, 0;
    if !tx.IsCoinBase() {
      var inputs := FetchInputs(db, queued0, src, tx);
      if inputs == None {
        return false, queued0, 0;
      }
      FoundIs(db.View() + queued0, src, tx, inputs.value, |tx.vin|);
      var valueIn := GetValueMapIn(tx, inputs.value);
      txIn := valueIn.value;
      ok, queued := ConnectInputs(tx, inputs.value, queued0, pos, checks, db.View(), src);
    }
    MergeUpdate(db.View(), queued, tx.id, FreshEntry(pos, |tx.vout|));
  }

  /** One round of ConnectBlock's loop: add up the values, spend the inputs, queue the new record. */
  method ConnectNext(db: TxDb, r0: Running, src: Source, tx: Tx, pos: DiskPos, checks: Checks)
    returns (ok: bool, r: Running)
    requires pos != NullPos
    ensures ok <==> TxOk(db.View() + r0.queued, src, tx, checks)
    ensures ok ==> r.Over(db.View()) == Step(r0.Over(db.View()), src, tx, pos)
  {
    var txOut := GetValueOut(tx);
    if txOut == None {
      return false, r0;
    }
    var queued, txIn;
    ok, queued, txIn := FetchAndConnect(db, r0.queued, src, tx, pos, checks);
    r := Running(
      queued[tx.id := FreshEntry(pos, |tx.vout|)],
      r0.valueIn + txIn,
      r0.valueOut + txOut.value,
      if !tx.IsCoinBase() && !tx.IsCoinStake() then r0.fees + txIn - txOut.value else r0.fees,
      if !tx.IsCoinBase() && tx.IsCoinStake() then txOut.value - txIn else r0.stakeReward);
  }

  /** ConnectBlock's loop over the transactions. */
  method ConnectTxs(db: TxDb, src: Source, vtx: seq<Tx>, at: Location, checks: Checks) returns (ok: bool, r: Running)
    ensures ok <==> TxsOk(db.View(), src, vtx, at, checks, |vtx|)
    ensures ok ==> r.Over(db.View()) == After(db.View(), src, vtx, at, |vtx|)
  {
    ghost var v := db.View();
    ok, r := true, Running(map[], 0, 0, 0, 0);
    var offset := 80 + CompactSizeLength(|vtx|);
    assert v + r.queued == v;
    for i := 0 to |vtx|
      invariant ok && offset == TxOffset(vtx, i)
      invariant r.Over(v) == After(v, src, vtx, at, i)
      invariant TxsOk(v, src, vtx, at, checks, i)
    {
      var tx := vtx[i];
      var pos := Pos(at.file, at.pos, at.pos + offset);
      offset := offset + tx.size;
      if !checks.sigOpsOk(i) {
        NotAllOk(v, src, vtx, at, checks, i);
        return false, r;
      }
      ok, r := ConnectNext(db, r, src, tx, pos, checks);
      if !ok {
        NotAllOk(v, src, vtx, at, checks, i);
        return;
      }
    }
  }

  /** CBlock::ConnectBlock with fJustCheck unset; on success the block's nMint and nMoneySupply. */
  method ConnectBlock(db: TxDb, src: Source, b: Block, cx: Context, checks: Checks)
    returns (ok: bool, mint: int, supply: int)
    modifies db
    ensures db.active == old(db.active) && (db.active ==> db.committed == old(db.committed))
    ensures ok <==> ConnectOk(old(db.View()), src, b, cx, checks)
    ensures db.View() == if ok then Connected(old(db.View()), b, cx.at) else old(db.View())
    ensures ok ==> mint == Mint(After(old(db.View()), src, b.vtx, cx.at, |b.vtx|))
    ensures ok ==> supply == cx.prevSupply + Gain(After(old(db.View()), src, b.vtx, cx.at, |b.vtx|))
  {
    ok, mint, supply := false, 0, 0;
    if !CheckBlock(b) || !checks.blockOk {
      return;
    }
    var fine, r := ConnectTxs(db, src, b.vtx, cx.at, checks);
    if !fine {
      return;
    }
    if !b.IsProofOfStake() {
      var coinbase := GetValueOut(b.vtx[0]);
      if coinbase.value > GetProofOfWorkReward(cx.height, r.fees, cx.bestSupply) {
        return;
      }
    } else {
      if !checks.coinAgeKnown || r.stakeReward > GetProofOfStakeReward(cx.height - 1, r.fees, cx.bestSupply) {
        return;
      }
    }
    ok := true;
    mint := r.valueOut - r.valueIn + r.fees;
    supply := cx.prevSupply + r.valueOut - r.valueIn;
    AfterView(db.View(), src, b.vtx, cx.at, |b.vtx|);
    WriteQueued(db, r.queued);
  }

  /** The loop over mapQueuedChanges; the order in which records are written does not matter. */
  method WriteQueued(db: TxDb, queued: TxMap)
    modifies db
    ensures db.active == old(db.active) && (db.active ==> db.committed == old(db.committed))
    ensures db.View() == old(db.View()) + queued
  {
    var todo := queued;
    while |todo| > 0
      invariant db.active == old(db.active) && (db.active ==> db.committed == old(db.committed))
      invariant db.View() + todo == old(db.View()) + queued
      decreases |todo|
    {
      ghost var _ := Pick(todo.Keys);
      var h :| h in todo;
      MergeFirst(db.View(), todo, h);
      db.UpdateTxIndex(h, todo[h]);
      todo := todo - {h};
    }
    assert todo == map[];
  }

  lemma MergeFirst(v: TxMap, todo: TxMap, h: Hash)
    requires h in todo
    ensures v[h := todo[h]] + (todo - {h}) == v + todo
    ensures |todo - {h}| < |todo|
  {
    assert (todo - {h}).Keys == todo.Keys - {h};
  }

  /** CBlock::DisconnectBlock: the transactions in reverse order. */
  method DisconnectBlock(db: TxDb, b: Block) returns (ok: bool)
    modifies db
    ensures db.active == old(db.active) && (db.active ==> db.committed == old(db.committed))
    ensures ok <==> DisconnectOk(old(db.View()), b)
    ensures ok ==> db.View() == Disconnected(old(db.View()), b)
  {
    var i := |b.vtx|;
    while i > 0
      invariant 0 <= i <= |b.vtx|
      invariant db.active == old(db.active) && (db.active ==> db.committed == old(db.committed))
      invariant DisconnectFrom(db.View(), b.vtx, i) == Disconnected(old(db.View()), b)
      invariant DisconnectOkFrom(db.View(), b.vtx, i) <==> DisconnectOk(old(db.View()), b)
    {
      i := i - 1;
      ok := DisconnectInputs(db, b.vtx[i]);
      if !ok {
        return;
      }
    }
    return true;
  }

  // ---------------------------------------------------------------- disconnecting undoes connecting

  lemma {:induction false} ConnectKeys(v: TxMap, vtx: seq<Tx>, at: Location, k: nat)
    requires k <= |vtx|
    ensures ConnectAll(v, vtx, at, k).Keys == v.Keys + Ids(vtx[..k])
  {
    if k > 0 {
      ConnectKeys(v, vtx, at, k - 1);
      assert vtx[..k] == vtx[..k - 1] + [vtx[k - 1]];
      IdsAppend(vtx[..k - 1], vtx[k - 1]);
    }
  }

  lemma IdsAppend(vtx: seq<Tx>, tx: Tx)
    ensures Ids(vtx + [tx]) == Ids(vtx) + {tx.id}
  {
    var all := vtx + [tx];
    assert all[|vtx|] == tx;
    forall h | h in Ids(vtx) ensures h in Ids(all) {
      var i :| 0 <= i < |vtx| && vtx[i].id == h;
      assert all[i].id == h;
    }
  }

  /** A transaction of a block whose ids are new is not in the index when its turn comes. */
  lemma StillFresh(v: TxMap, vtx: seq<Tx>, at: Location, i: nat)
    requires i < |vtx| && DistinctIds(vtx) && Ids(vtx) !! v.Keys
    ensures vtx[i].id !in ConnectAll(v, vtx, at, i)
  {
    ConnectKeys(v, vtx, at, i);
    assert vtx[i].id in Ids(vtx);
    assert vtx[i].id !in Ids(vtx[..i]);
  }

  /** Each of the first `k` transactions is new to the index and spends distinct outputs that
      are unspent at its turn. */
  predicate CleanTo(v: TxMap, vtx: seq<Tx>, at: Location, k: nat)
    requires k <= |vtx|
  {
    k == 0 || (CleanTo(v, vtx, at, k - 1) && CleanStep(ConnectAll(v, vtx, at, k - 1), vtx[k - 1]))
  }

  predicate CleanStep(v: TxMap, tx: Tx) {
    tx.id !in v && SpendsUnspent(v, tx)
  }

  predicate Clean(v: TxMap, b: Block, at: Location) {
    CleanTo(v, b.vtx, at, |b.vtx|)
  }

  lemma TxsOkLast(v: TxMap, src: Source, vtx: seq<Tx>, at: Location, checks: Checks, k: nat)
    requires 0 < k <= |vtx| && TxsOk(v, src, vtx, at, checks, k)
    ensures TxsOk(v, src, vtx, at, checks, k - 1)
    ensures SpendsUnspent(ConnectAll(v, vtx, at, k - 1), vtx[k - 1])
  {
    AfterView(v, src, vtx, at, k - 1);
    TxOkSpendsUnspent(ConnectAll(v, vtx, at, k - 1), src, vtx[k - 1], checks);
  }

  lemma {:induction false} TxsOkClean(v: TxMap, src: Source, vtx: seq<Tx>, at: Location, checks: Checks, k: nat)
    requires k <= |vtx| && TxsOk(v, src, vtx, at, checks, k)
    requires DistinctIds(vtx) && Ids(vtx) !! v.Keys
    ensures CleanTo(v, vtx, at, k)
  {
    if k > 0 {
      CleanLast(v, src, vtx, at, checks, k);
      TxsOkClean(v, src, vtx, at, checks, k - 1);
    }
  }

  lemma CleanLast(v: TxMap, src: Source, vtx: seq<Tx>, at: Location, checks: Checks, k: nat)
    requires 0 < k <= |vtx| && TxsOk(v, src, vtx, at, checks, k)
    requires DistinctIds(vtx) && Ids(vtx) !! v.Keys
    ensures TxsOk(v, src, vtx, at, checks, k - 1) && CleanStep(ConnectAll(v, vtx, at, k - 1), vtx[k - 1])
  {
    TxsOkLast(v, src, vtx, at, checks, k);
    StillFresh(v, vtx, at, k - 1);
  }

  lemma ConnectOkClean(v: TxMap, src: Source, b: Block, cx: Context, checks: Checks)
    requires ConnectOk(v, src, b, cx, checks) && Ids(b.vtx) !! v.Keys
    ensures Clean(v, b, cx.at)
  {
    TxsOkClean(v, src, b.vtx, cx.at, checks, |b.vtx|);
  }

  lemma {:induction false} UndoPrefix(v: TxMap, vtx: seq<Tx>, at: Location, k: nat)
    requires k <= |vtx| && CleanTo(v, vtx, at, k)
    ensures DisconnectOkFrom(ConnectAll(v, vtx, at, k), vtx, k)
    ensures DisconnectFrom(ConnectAll(v, vtx, at, k), vtx, k) == v
  {
    if k > 0 {
      var before, tx, pos := ConnectAll(v, vtx, at, k - 1), vtx[k - 1], TxPos(at, vtx, k - 1);
      DisconnectTxUndoesConnectTx(before, tx, pos);
      UndoPrefix(v, vtx, at, k - 1);
      assert ConnectAll(v, vtx, at, k) == ConnectTx(before, tx, pos);
    }
  }

  lemma CleanUndo(v: TxMap, b: Block, at: Location)
    requires Clean(v, b, at)
    ensures DisconnectOk(Connected(v, b, at), b) && Disconnected(Connected(v, b, at), b) == v
  {
    UndoPrefix(v, b.vtx, at, |b.vtx|);
  }

  lemma {:induction false} DisconnectErases(v: TxMap, vtx: seq<Tx>, k: nat)
    requires k <= |vtx|
    ensures DisconnectFrom(v, vtx, k).Keys == v.Keys - Ids(vtx[..k])
    decreases k
  {
    if k > 0 {
      DisconnectErases(DisconnectTx(v, vtx[k - 1]), vtx, k - 1);
      assert vtx[..k] == vtx[..k - 1] + [vtx[k - 1]];
      IdsAppend(vtx[..k - 1], vtx[k - 1]);
    }
  }

  /** Whenever ConnectBlock succeeds, DisconnectBlock succeeds afterwards and restores the
      index exactly -- in-block spends and several inputs from one parent included -- if and
      only if no transaction of the block was in the index already. */
  lemma DisconnectUndoesConnect(v: TxMap, src: Source, b: Block, cx: Context, checks: Checks)
    requires ConnectOk(v, src, b, cx, checks)
    ensures var w := Connected(v, b, cx.at);
            DisconnectOk(w, b) && Disconnected(w, b) == v <==> Ids(b.vtx) !! v.Keys
  {
    var w := Connected(v, b, cx.at);
    assert b.vtx[..|b.vtx|] == b.vtx;
    if Ids(b.vtx) !! v.Keys {
      ConnectOkClean(v, src, b, cx, checks);
      CleanUndo(v, b, cx.at);
    } else {
      DisconnectErases(w, b.vtx, |b.vtx|);
      var h :| h in Ids(b.vtx) && h in v.Keys;
      assert h !in Disconnected(w, b);
    }
  }

  /** A block that holds a coinbase alone connects exactly if the coinbase is within the reward. */
  lemma CoinbaseConnects(v: TxMap, src: Source, b: Block, tx: Tx, cx: Context)
    requires b.vtx == [tx] && tx.IsCoinBase() && |tx.vout| == 1 && MoneyRange(tx.vout[0].value)
    requires 2 <= |tx.script| <= 100
    ensures ConnectOk(v, src, b, cx, AllFine())
            <==> tx.vout[0].value <= GetProofOfWorkReward(cx.height, 0, cx.bestSupply)
  {
    OneOutput(tx.vout);
    assert TxsOk(v, src, b.vtx, cx.at, AllFine(), 0);
    assert After(v, src, b.vtx, cx.at, 0).fees == 0;
    assert b.vtx[0] == tx && !b.IsProofOfStake();
  }
}
