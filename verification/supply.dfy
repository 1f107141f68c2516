/** Money supply: the value of the unspent outputs in the index, and how ConnectBlock's
    nMint and nMoneySupply account for it (src/main.cpp, src/blockparams.cpp). */
module Supply {
  import opened Transactions
  import opened TxIndex
  import opened Blocks

  // ---------------------------------------------------------------- sums over maps

  lemma NonEmpty(m: map<Hash, int>)
    requires |m| > 0
    ensures exists h :: h in m
  {
    var h := Pick(m.Keys);
  }

  ghost function Sum(m: map<Hash, int>): int
    decreases |m|
  {
    if |m| == 0 then 0 else
      NonEmpty(m);
      var h :| h in m;
      SmallerWithout(m, h);
      m[h] + Sum(m - {h})
  }

  lemma SmallerWithout(m: map<Hash, int>, h: Hash)
    requires h in m
    ensures |m - {h}| == |m| - 1
  {
    assert (m - {h}).Keys == m.Keys - {h};
  }

  lemma {:induction false} SumSplit(m: map<Hash, int>, h: Hash)
    requires h in m
    ensures Sum(m) == m[h] + Sum(m - {h})
    decreases |m|
  {
    NonEmpty(m);
    var g :| g in m && Sum(m) == m[g] + Sum(m - {g});
    if g != h {
      SmallerWithout(m, g);
      SmallerWithout(m, h);
      SumSplit(m - {g}, h);
      SumSplit(m - {h}, g);
      WithoutBoth(m, g, h);
    }
  }

  lemma WithoutBoth(m: map<Hash, int>, g: Hash, h: Hash)
    ensures m - {g} - {h} == m - {h} - {g}
  {
  }

  lemma SumUpdate(m: map<Hash, int>, h: Hash, x: int)
    ensures Sum(m[h := x]) == Sum(m) + x - if h in m then m[h] else 0
  {
    var m' := m[h := x];
    SumSplit(m', h);
    assert m' - {h} == m - {h};
    if h in m {
      SumSplit(m, h);
    } else {
      assert m - {h} == m;
    }
  }

  // ---------------------------------------------------------------- value of unspent outputs

  /** Every record points at a transaction on disk with as many outputs as it has flags. */
  ghost predicate Consistent(v: TxMap, disk: map<DiskPos, Tx>) {
    forall h :: h in v ==>
      v[h].pos in disk && v[h].pos != MEMPOOL_POS && |v[h].spent| == |disk[v[h].pos].vout|
  }

  ghost function FreeTo(spent: seq<DiskPos>, vout: seq<TxOut>, k: nat): int
    requires k <= |spent| == |vout|
  {
    if k == 0 then 0 else FreeTo(spent, vout, k - 1) + if spent[k - 1] == NullPos then vout[k - 1].value else 0
  }

  ghost function FreeValue(e: Entry, disk: map<DiskPos, Tx>): int {
    if e.pos in disk && |e.spent| == |disk[e.pos].vout| then FreeTo(e.spent, disk[e.pos].vout, |e.spent|) else 0
  }

  ghost function Values(v: TxMap, disk: map<DiskPos, Tx>): map<Hash, int> {
    map h | h in v :: FreeValue(v[h], disk)
  }

  /** Total value of all unspent outputs in the index. */
  ghost function UnspentTotal(v: TxMap, disk: map<DiskPos, Tx>): int {
    Sum(Values(v, disk))
  }

  lemma EmptyTotal(disk: map<DiskPos, Tx>)
    ensures UnspentTotal(map[], disk) == 0 && Consistent(map[], disk)
  {
    assert |Values(map[], disk)| == 0;
  }

  lemma {:induction false} FreeToMark(spent: seq<DiskPos>, vout: seq<TxOut>, n: nat, p: DiskPos, k: nat)
    requires k <= |spent| == |vout| && n < |spent|
    requires spent[n] == NullPos && p != NullPos
    ensures FreeTo(spent[n := p], vout, k) == FreeTo(spent, vout, k) - if n < k then vout[n].value else 0
  {
    if k > 0 {
      FreeToMark(spent, vout, n, p, k - 1);
    }
  }

  lemma {:induction false} FreeToFresh(pos: DiskPos, vout: seq<TxOut>, k: nat)
    requires k <= |vout|
    ensures FreeTo(FreshEntry(pos, |vout|).spent, vout, k) == OutTo(vout, k)
  {
    if k > 0 {
      FreeToFresh(pos, vout, k - 1);
    }
  }

  lemma MarkValue(v: TxMap, src: Source, o: OutPoint, p: DiskPos)
    requires Consistent(v, src.disk) && IsUnspent(v, o) && p != NullPos
    ensures Consistent(Mark(v, o, p), src.disk)
    ensures UnspentTotal(Mark(v, o, p), src.disk) == UnspentTotal(v, src.disk) - PrevValue(v, src, o)
  {
    var w := Mark(v, o, p);
    var vout := src.disk[v[o.hash].pos].vout;
    FreeToMark(v[o.hash].spent, vout, o.n, p, |vout|);
    assert Values(w, src.disk) == Values(v, src.disk)[o.hash := FreeValue(w[o.hash], src.disk)];
    SumUpdate(Values(v, src.disk), o.hash, FreeValue(w[o.hash], src.disk));
  }

  lemma {:induction false} MarkAllValue(v: TxMap, src: Source, vin: seq<OutPoint>, p: DiskPos, k: nat)
    requires k <= |vin| && NoDuplicates(vin) && p != NullPos
    requires Consistent(v, src.disk)
    requires forall i :: 0 <= i < |vin| ==> IsUnspent(v, vin[i])
    ensures var w := MarkAll(v, OutPoints(vin[..k]), p);
            Consistent(w, src.disk) && UnspentTotal(w, src.disk) == UnspentTotal(v, src.disk) - InTo(v, src, vin, k)
  {
    if k == 0 {
      assert OutPoints(vin[..0]) == {};
      MarkNone(v, p);
    } else {
      MarkAllValue(v, src, vin, p, k - 1);
      MarkNext(v, vin, k - 1, p);
      MarkValue(MarkAll(v, OutPoints(vin[..k - 1]), p), src, vin[k - 1], p);
    }
  }

  lemma EnterValue(v: TxMap, disk: map<DiskPos, Tx>, tx: Tx, pos: DiskPos)
    requires tx.id !in v && pos in disk && disk[pos] == tx
    ensures UnspentTotal(v[tx.id := FreshEntry(pos, |tx.vout|)], disk) == UnspentTotal(v, disk) + ValueOut(tx.vout)
  {
    var e := FreshEntry(pos, |tx.vout|);
    FreeToFresh(pos, tx.vout, |tx.vout|);
    var m := Values(v, disk);
    assert Values(v[tx.id := e], disk) == m[tx.id := FreeValue(e, disk)];
    SumUpdate(m, tx.id, FreeValue(e, disk));
  }

  lemma EnterConsistent(v: TxMap, disk: map<DiskPos, Tx>, tx: Tx, pos: DiskPos)
    requires Consistent(v, disk) && pos != MEMPOOL_POS && pos in disk && disk[pos] == tx
    ensures Consistent(v[tx.id := FreshEntry(pos, |tx.vout|)], disk)
  {
  }

  /** A transaction takes the value of its inputs out of the unspent total and puts in that of its outputs. */
  lemma ConnectTxValue(v: TxMap, src: Source, tx: Tx, pos: DiskPos)
    requires Consistent(v, src.disk) && CleanStep(v, tx)
    requires pos != NullPos && pos != MEMPOOL_POS && pos in src.disk && src.disk[pos] == tx
    ensures Consistent(ConnectTx(v, tx, pos), src.disk)
    ensures UnspentTotal(ConnectTx(v, tx, pos), src.disk)
            == UnspentTotal(v, src.disk) - ValueIn(v, src, tx) + ValueOut(tx.vout)
  {
    var w := v;
    if !tx.IsCoinBase() {
      MarkAllValue(v, src, tx.vin, pos, |tx.vin|);
      assert tx.vin[..|tx.vin|] == tx.vin;
      w := MarkAll(v, OutPoints(tx.vin), pos);
    }
    EnterValue(w, src.disk, tx, pos);
    EnterConsistent(w, src.disk, tx, pos);
  }

  // ---------------------------------------------------------------- whole blocks

  /** The block lies in the block file at `at`. */
  ghost predicate Stored(disk: map<DiskPos, Tx>, vtx: seq<Tx>, at: Location) {
    forall i :: 0 <= i < |vtx| ==> TxPos(at, vtx, i) in disk && disk[TxPos(at, vtx, i)] == vtx[i]
  }

  lemma GainStep(v: TxMap, src: Source, vtx: seq<Tx>, at: Location, k: nat)
    requires 0 < k <= |vtx|
    ensures Gain(After(v, src, vtx, at, k))
            == Gain(After(v, src, vtx, at, k - 1))
             - ValueIn(ConnectAll(v, vtx, at, k - 1), src, vtx[k - 1]) + ValueOut(vtx[k - 1].vout)
  {
    AfterView(v, src, vtx, at, k - 1);
  }

  lemma {:induction false} BlockValueTo(v: TxMap, src: Source, vtx: seq<Tx>, at: Location, k: nat)
    requires k <= |vtx| && CleanTo(v, vtx, at, k)
    requires Consistent(v, src.disk) && Stored(src.disk, vtx, at)
    ensures var w := ConnectAll(v, vtx, at, k);
            && Consistent(w, src.disk)
            && UnspentTotal(w, src.disk) == UnspentTotal(v, src.disk) + Gain(After(v, src, vtx, at, k))
  {
    if k > 0 {
      BlockValueTo(v, src, vtx, at, k - 1);
      var w, pos := ConnectAll(v, vtx, at, k - 1), TxPos(at, vtx, k - 1);
      assert pos != MEMPOOL_POS by {
        TxOffsetPastHeader(vtx, k - 1);
      }
      ConnectTxValue(w, src, vtx[k - 1], pos);
      GainStep(v, src, vtx, at, k);
    }
  }

  /** The recorded growth of the money supply is exactly the growth of the unspent total. */
  lemma SupplyMatchesUnspent(v: TxMap, src: Source, b: Block, cx: Context, checks: Checks)
    requires ConnectOk(v, src, b, cx, checks)
    requires Consistent(v, src.disk) && Stored(src.disk, b.vtx, cx.at) && Ids(b.vtx) !! v.Keys
    requires cx.prevSupply == UnspentTotal(v, src.disk)
    ensures Consistent(Connected(v, b, cx.at), src.disk)
    ensures cx.prevSupply + Gain(After(v, src, b.vtx, cx.at, |b.vtx|))
            == UnspentTotal(Connected(v, b, cx.at), src.disk)
  {
    ConnectOkClean(v, src, b, cx, checks);
    BlockValueTo(v, src, b.vtx, cx.at, |b.vtx|);
  }

  /** Net gain of the coinstakes among transactions lo .. k-1. */
  function StakeGains(v: TxMap, src: Source, vtx: seq<Tx>, at: Location, lo: nat, k: nat): int
    requires k <= |vtx|
  {
    if k <= lo then 0
    else
      StakeGains(v, src, vtx, at, lo, k - 1) +
      if vtx[k - 1].IsCoinStake()
      then ValueOut(vtx[k - 1].vout) - ValueIn(After(v, src, vtx, at, k - 1).view, src, vtx[k - 1])
      else 0
  }

  lemma {:induction false} MintTo(v: TxMap, src: Source, b: Block, at: Location, k: nat)
    requires 1 <= k <= |b.vtx| && CheckBlock(b)
    ensures Mint(After(v, src, b.vtx, at, k)) == ValueOut(b.vtx[0].vout) + StakeGains(v, src, b.vtx, at, 0, k)
  {
    if k == 1 {
      assert After(v, src, b.vtx, at, 0) == Totals(v, 0, 0, 0, 0);
      assert StakeGains(v, src, b.vtx, at, 0, 0) == 0;
    } else {
      MintTo(v, src, b, at, k - 1);
    }
  }

  /** nMint is the coinbase output plus the net gain of the coinstakes: fees cancel out. */
  lemma MintIsCoinbasePlusStake(v: TxMap, src: Source, b: Block, cx: Context, checks: Checks)
    requires ConnectOk(v, src, b, cx, checks)
    ensures Mint(After(v, src, b.vtx, cx.at, |b.vtx|))
            == ValueOut(b.vtx[0].vout) + StakeGains(v, src, b.vtx, cx.at, 0, |b.vtx|)
  {
    MintTo(v, src, b, cx.at, |b.vtx|);
  }

  /** The reward function of the block's kind at zero fees. */
  function BareReward(b: Block, cx: Context): int {
    if b.IsProofOfStake() then GetProofOfStakeReward(cx.height - 1, 0, cx.bestSupply)
    else GetProofOfWorkReward(cx.height, 0, cx.bestSupply)
  }

  lemma {:induction false} StakeGainsFromTwo(v: TxMap, src: Source, b: Block, at: Location, k: nat)
    requires 2 <= k <= |b.vtx| && CheckBlock(b)
    ensures StakeGains(v, src, b.vtx, at, 0, k)
            == StakeGains(v, src, b.vtx, at, 2, k) + StakeGains(v, src, b.vtx, at, 0, 2)
  {
    if k > 2 {
      StakeGainsFromTwo(v, src, b, at, k - 1);
    }
  }

  lemma {:induction false} StakeRewardTo(v: TxMap, src: Source, b: Block, at: Location, k: nat)
    requires 2 <= k <= |b.vtx| && CheckBlock(b) && b.IsProofOfStake()
    ensures After(v, src, b.vtx, at, k).stakeReward == StakeGains(v, src, b.vtx, at, 0, 2)
    ensures StakeGains(v, src, b.vtx, at, 2, k) == 0
  {
    if k == 2 {
      assert StakeGains(v, src, b.vtx, at, 0, 1) == 0 by {
        assert StakeGains(v, src, b.vtx, at, 0, 0) == 0;
      }
    } else {
      StakeRewardTo(v, src, b, at, k - 1);
    }
  }

  /** What the reward check of ConnectBlock leaves over. */
  function Unclaimed(t: Totals, b: Block, cx: Context): int
    requires b.vtx != []
  {
    if b.IsProofOfStake() then GetProofOfStakeReward(cx.height - 1, t.fees, cx.bestSupply) - t.stakeReward
    else GetProofOfWorkReward(cx.height, t.fees, cx.bestSupply) - ValueOut(b.vtx[0].vout)
  }

  /** A connected block raises the supply by the reward at zero fees, less what it leaves unclaimed, plus
      what coinstakes outside vtx[1] gain. */
  lemma GainIs(v: TxMap, src: Source, b: Block, cx: Context, checks: Checks)
    requires ConnectOk(v, src, b, cx, checks)
    ensures var t := After(v, src, b.vtx, cx.at, |b.vtx|);
            Gain(t) == BareReward(b, cx) - Unclaimed(t, b, cx) + StakeGains(v, src, b.vtx, cx.at, 2, |b.vtx|)
  {
    var n := |b.vtx|;
    MintTo(v, src, b, cx.at, n);
    assert StakeGains(v, src, b.vtx, cx.at, 0, 1) == 0 by {
      assert StakeGains(v, src, b.vtx, cx.at, 0, 0) == 0;
    }
    if n >= 2 {
      StakeGainsFromTwo(v, src, b, cx.at, n);
      if b.IsProofOfStake() {
        StakeRewardTo(v, src, b, cx.at, n);
        assert ValueOut(b.vtx[0].vout) == 0 by {
          assert OutTo(b.vtx[0].vout, 0) == 0;
        }
      }
    }
  }

  /** So it stays within the reward exactly if such coinstakes gain no more than it leaves unclaimed, and
      always without them. */
  lemma GainBounded(v: TxMap, src: Source, b: Block, cx: Context, checks: Checks)
    requires ConnectOk(v, src, b, cx, checks)
    ensures var t := After(v, src, b.vtx, cx.at, |b.vtx|);
            && Unclaimed(t, b, cx) >= 0
            && Gain(t) <= BareReward(b, cx) + StakeGains(v, src, b.vtx, cx.at, 2, |b.vtx|)
            && (Gain(t) <= BareReward(b, cx) <==> StakeGains(v, src, b.vtx, cx.at, 2, |b.vtx|) <= Unclaimed(t, b, cx))
    ensures (forall i :: 2 <= i < |b.vtx| ==> !b.vtx[i].IsCoinStake()) ==>
              Gain(After(v, src, b.vtx, cx.at, |b.vtx|)) <= BareReward(b, cx)
  {
    GainIs(v, src, b, cx, checks);
    if forall i :: 2 <= i < |b.vtx| ==> !b.vtx[i].IsCoinStake() {
      NoStakeNoGain(v, src, b.vtx, cx.at, |b.vtx|);
    }
  }

  lemma {:induction false} NoStakeNoGain(v: TxMap, src: Source, vtx: seq<Tx>, at: Location, k: nat)
    requires k <= |vtx| && forall i :: 2 <= i < |vtx| ==> !vtx[i].IsCoinStake()
    ensures StakeGains(v, src, vtx, at, 2, k) == 0
  {
    if k > 0 {
      NoStakeNoGain(v, src, vtx, at, k - 1);
    }
  }
}
