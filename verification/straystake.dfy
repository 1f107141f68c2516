/** Supply beyond the reward: CheckBlock looks for further coinstakes only in proof-of-stake blocks, and
    ConnectInputs does not compare the values of a coinstake, so that a proof-of-work block with a
    coinstake at vtx[2] connects whatever that coinstake pays (src/main.cpp). */
module StrayStake {
  import opened Transactions
  import opened TxIndex
  import opened Blocks
  import opened Supply
  import opened Heights

  /** A transaction with one input, an unspent output of a transaction on disk. */
  predicate SpendsOne(v: TxMap, src: Source, tx: Tx, prev: Tx) {
    && |tx.vin| == 1 && !tx.vin[0].IsNull() && IsUnspent(v, tx.vin[0])
    && v[tx.vin[0].hash].pos != MEMPOOL_POS
    && v[tx.vin[0].hash].pos in src.disk && src.disk[v[tx.vin[0].hash].pos] == prev
    && tx.vin[0].n < |prev.vout| && prev.time <= tx.time
    && !prev.vout[tx.vin[0].n].IsEmpty() && MoneyRange(prev.vout[tx.vin[0].n].value)
    && OutputsInRange(tx.vout)
  }

  lemma OneInputOk(v: TxMap, src: Source, tx: Tx, prev: Tx)
    requires SpendsOne(v, src, tx, prev)
    requires tx.IsCoinStake() || 0 <= ValueOut(tx.vout) <= prev.vout[tx.vin[0].n].value
    ensures TxOk(v, src, tx, AllFine()) && ValueIn(v, src, tx) == prev.vout[tx.vin[0].n].value
  {
    var c := AllFine();
    assert FetchedTo(v, src, tx.vin, 0) && InputsOkTo(v, src, tx, c, 0) && SpendableTo(v, src, tx, c, 0);
    assert InTo(v, src, tx.vin, 1) == InTo(v, src, tx.vin, 0) + PrevValue(v, src, tx.vin[0]);
    assert FetchedTo(v, src, tx.vin, 1);
    assert InputOk(v, src, tx, c, 0) && Spendable(v, src, tx, c, 0);
    assert InputsOkTo(v, src, tx, c, 1) && SpendableTo(v, src, tx, c, 1);
  }

  /** Connecting another transaction that does not spend the same output changes nothing here. */
  lemma StillSpendsOne(v: TxMap, src: Source, tx: Tx, prev: Tx, other: Tx, pos: DiskPos)
    requires SpendsOne(v, src, tx, prev) && other.id != tx.vin[0].hash && tx.vin[0] !in OutPoints(other.vin)
    ensures SpendsOne(ConnectTx(v, other, pos), src, tx, prev)
  {
  }

  /** A coinbase, a payment and a coinstake, in this order. */
  datatype Trio = Trio(coinbase: Tx, payment: Tx, stake: Tx) {
    function Txs(): seq<Tx> {
      [coinbase, payment, stake]
    }
  }

  predicate Stray(v: TxMap, src: Source, x: Trio, prev: Tx, prev': Tx) {
    && x.coinbase.IsCoinBase() && OutputsInRange(x.coinbase.vout)
    && SpendsOne(v, src, x.payment, prev) && SpendsOne(v, src, x.stake, prev')
    && !x.payment.IsCoinStake() && x.stake.IsCoinStake() && x.payment.vin[0] != x.stake.vin[0]
    && ValueOut(x.payment.vout) == prev.vout[x.payment.vin[0].n].value
    && x.coinbase.id != x.payment.vin[0].hash && x.coinbase.id != x.stake.vin[0].hash
    && x.payment.id != x.stake.vin[0].hash
  }

  /** The three connect, without fees, and the coinstake gains what it pays beyond its input. */
  lemma StrayConnects(v: TxMap, src: Source, x: Trio, prev: Tx, prev': Tx, at: Location)
    requires Stray(v, src, x, prev, prev')
    ensures TxsOk(v, src, x.Txs(), at, AllFine(), 3) && After(v, src, x.Txs(), at, 3).fees == 0
    ensures StakeGains(v, src, x.Txs(), at, 2, 3) == ValueOut(x.stake.vout) - prev'.vout[x.stake.vin[0].n].value
  {
    var txs := x.Txs();
    var v1 := ConnectTx(v, x.coinbase, TxPos(at, txs, 0));
    var v2 := ConnectTx(v1, x.payment, TxPos(at, txs, 1));
    StillSpendsOne(v, src, x.payment, prev, x.coinbase, TxPos(at, txs, 0));
    StillSpendsOne(v, src, x.stake, prev', x.coinbase, TxPos(at, txs, 0));
    StillSpendsOne(v1, src, x.stake, prev', x.payment, TxPos(at, txs, 1));
    OneInputOk(v1, src, x.payment, prev);
    OneInputOk(v2, src, x.stake, prev');
    ThreeSteps(v, src, x, at);
  }

  /** What the loop accumulates over three transactions. */
  lemma ThreeSteps(v: TxMap, src: Source, x: Trio, at: Location)
    requires x.coinbase.IsCoinBase() && !x.payment.IsCoinBase() && !x.payment.IsCoinStake() && x.stake.IsCoinStake()
    ensures var txs := x.Txs();
            var v1 := ConnectTx(v, x.coinbase, TxPos(at, txs, 0));
            var v2 := ConnectTx(v1, x.payment, TxPos(at, txs, 1));
            && After(v, src, txs, at, 3).fees == ValueIn(v1, src, x.payment) - ValueOut(x.payment.vout)
            && StakeGains(v, src, txs, at, 2, 3) == ValueOut(x.stake.vout) - ValueIn(v2, src, x.stake)
            && (TxsOk(v, src, txs, at, AllFine(), 3) <==>
                  TxOk(v, src, x.coinbase, AllFine()) && TxOk(v1, src, x.payment, AllFine())
                  && TxOk(v2, src, x.stake, AllFine()))
  {
    var txs, c := x.Txs(), AllFine();
    assert After(v, src, txs, at, 0).view == v && TxsOk(v, src, txs, at, c, 0);
    assert After(v, src, txs, at, 1) == Step(After(v, src, txs, at, 0), src, x.coinbase, TxPos(at, txs, 0));
    assert After(v, src, txs, at, 2) == Step(After(v, src, txs, at, 1), src, x.payment, TxPos(at, txs, 1));
    assert After(v, src, txs, at, 3) == Step(After(v, src, txs, at, 2), src, x.stake, TxPos(at, txs, 2));
    assert TxsOk(v, src, txs, at, c, 1) <==> TxOk(v, src, x.coinbase, c);
    assert TxsOk(v, src, txs, at, c, 2) <==>
      TxsOk(v, src, txs, at, c, 1) && TxOk(After(v, src, txs, at, 1).view, src, x.payment, c);
    assert StakeGains(v, src, txs, at, 2, 2) == 0;
  }

  /** Every such block that claims its whole reward connects, and raises the supply beyond the reward
      exactly if the coinstake pays more than its input. */
  lemma StrayRaisesSupply(v: TxMap, src: Source, b: Block, x: Trio, prev: Tx, prev': Tx, cx: Context)
    requires Stray(v, src, x, prev, prev') && b.vtx == x.Txs() && CheckBlock(b) && !b.IsProofOfStake()
    requires ValueOut(x.coinbase.vout) == BareReward(b, cx)
    ensures ConnectOk(v, src, b, cx, AllFine())
    ensures Gain(After(v, src, b.vtx, cx.at, |b.vtx|)) > BareReward(b, cx)
            <==> ValueOut(x.stake.vout) > prev'.vout[x.stake.vin[0].n].value
  {
    StrayConnects(v, src, x, prev, prev', cx.at);
    GainBounded(v, src, b, cx, AllFine());
  }

  lemma StakeOutput(vout: seq<TxOut>)
    requires |vout| == 2 && vout[0].IsEmpty() && MoneyRange(vout[1].value)
    ensures OutputsInRange(vout) && ValueOut(vout) == vout[1].value
  {
    assert OutTo(vout, 0) == 0 && InRangeTo(vout, 0);
    assert OutTo(vout, 1) == 0 && InRangeTo(vout, 1);
    assert OutTo(vout, 2) == vout[1].value && InRangeTo(vout, 2);
  }

  function Coins(n: nat): TxOut {
    TxOut(n * COIN, [1])
  }

  function Paid(n: nat): Tx {
    Tx(5, 0, [OutPoint(4, 0)], [], [Coins(n), Coins(n)], 100)
  }

  /** The coinbase takes the whole reward, the payment passes one coin on, and the coinstake pays two
      coins for one. */
  function Example(): Trio {
    Trio(Tx(7, 0, [OutPoint(0, 0xffff_ffff)], [82, 0], [Coins(140000)], 100),
         Tx(8, 0, [OutPoint(5, 0)], [], [Coins(1)], 100),
         Tx(9, 0, [OutPoint(5, 1)], [], [TxOut(0, []), Coins(2)], 100))
  }

  lemma ExampleIsStray(v: TxMap, src: Source)
    requires v == map[5 := FreshEntry(Pos(1, 0, 81), 2)] && src == Source(map[Pos(1, 0, 81) := Paid(1)], map[])
    ensures Stray(v, src, Example(), Paid(1), Paid(1)) && Consistent(v, src.disk)
  {
    var x := Example();
    OneOutput(x.coinbase.vout);
    OneOutput(x.payment.vout);
    StakeOutput(x.stake.vout);
  }

  lemma ExampleChecks(b: Block)
    requires b.vtx == Example().Txs()
    ensures CheckBlock(b) && !b.IsProofOfStake() && HeightRule(b, 2)
  {
    var x := Example();
    SmallHeight(x.coinbase.script, 2);
    OneOutput(x.coinbase.vout);
    OneOutput(x.payment.vout);
    StakeOutput(x.stake.vout);
    assert CheckTransaction(x.coinbase) && CheckTransaction(x.payment) && CheckTransaction(x.stake);
  }

  /** A proof-of-work block that ConnectBlock takes, though it raises the supply by more than its reward. */
  lemma ExceedsReward() returns (v: TxMap, src: Source, b: Block, cx: Context, checks: Checks)
    ensures ConnectOk(v, src, b, cx, checks) && Consistent(v, src.disk) && !b.IsProofOfStake()
    ensures cx.height == 2 && HeightRule(b, 2)
    ensures Gain(After(v, src, b.vtx, cx.at, |b.vtx|)) > BareReward(b, cx)
  {
    v, src := map[5 := FreshEntry(Pos(1, 0, 81), 2)], Source(map[Pos(1, 0, 81) := Paid(1)], map[]);
    b, cx, checks := Block(1, 0, Example().Txs()), Context(Location(1, 500), 2, 0, 0), AllFine();
    ExampleIsStray(v, src);
    ExampleChecks(b);
    OneOutput(Example().coinbase.vout);
    StakeOutput(Example().stake.vout);
    StrayRaisesSupply(v, src, b, Example(), Paid(1), Paid(1), cx);
  }
}
