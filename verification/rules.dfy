/** What it takes for a transaction to connect (ConnectInputs in src/main.cpp), said of the index and the
    stored transactions themselves: the running tests of the loops amount to tests of single inputs and of
    totals. And what that achieves: nothing but coinbases and coinstakes adds value. */
module Rules {
  import opened Transactions
  import opened TxIndex
  import opened Blocks
  import opened Supply

  /** Where the transaction of a record lies: in the memory pool or in the block files. */
  function PrevTx(e: Entry, src: Source, h: Hash): Option<Tx> {
    if e.pos == Pos(1, 1, 1) then if h in src.mempool then Some(src.mempool[h]) else None
    else if e.pos in src.disk then Some(src.disk[e.pos]) else None
  }

  /** The output exists and is unspent, holds something, is no younger than the transaction and not immature,
      has a value in the money range, and is signed for. */
  ghost predicate InputFine(v: TxMap, src: Source, tx: Tx, checks: Checks, i: nat)
    requires i < |tx.vin|
  {
    var h, n := tx.vin[i].hash, tx.vin[i].n;
    && h in v && n < |v[h].spent| && v[h].spent[n] == NullPos
    && PrevTx(v[h], src, h).Some?
    && var prev := PrevTx(v[h], src, h).value;
       && n < |prev.vout| && 0 <= prev.vout[n].value <= MAX_SINGLE_TX
       && (prev.vout[n].value != 0 || prev.vout[n].script != [])
       && prev.time <= tx.time
       && (prev.IsCoinBase() || prev.IsCoinStake() ==> !checks.immature(v[h]))
       && checks.signatureOk(prev, tx, i)
  }

  lemma InputIs(v: TxMap, src: Source, tx: Tx, checks: Checks, i: nat)
    requires i < |tx.vin|
    ensures InputOk(v, src, tx, checks, i) && Spendable(v, src, tx, checks, i) && Fetched(v, src, tx.vin[i]) <==>
      InputFine(v, src, tx, checks, i) && tx.vin[i] !in tx.vin[..i] && MoneyRange(InTo(v, src, tx.vin, i + 1))
    ensures InputFine(v, src, tx, checks, i) ==> PrevValue(v, src, tx.vin[i]) >= 0
  {
  }

  ghost predicate AllFine(v: TxMap, src: Source, tx: Tx, checks: Checks, k: nat)
    requires k <= |tx.vin|
  {
    forall i :: 0 <= i < k ==> InputFine(v, src, tx, checks, i)
  }

  /** The first `k` inputs pass the three loops exactly if each is fine, no two are the same, and their total is
      in the money range. */
  lemma {:induction false} InputsAre(v: TxMap, src: Source, tx: Tx, checks: Checks, k: nat)
    requires k <= |tx.vin|
    ensures FetchedTo(v, src, tx.vin, k) && InputsOkTo(v, src, tx, checks, k) && SpendableTo(v, src, tx, checks, k)
            <==> && AllFine(v, src, tx, checks, k) && NoDuplicates(tx.vin[..k])
                 && 0 <= InTo(v, src, tx.vin, k) <= MAX_SINGLE_TX
    ensures AllFine(v, src, tx, checks, k) ==> InTo(v, src, tx.vin, k) >= 0
  {
    if k > 0 {
      InputsAre(v, src, tx, checks, k - 1);
      InputIs(v, src, tx, checks, k - 1);
      OneMoreInput(tx.vin, k);
    }
  }

  lemma OneMoreInput(vin: seq<OutPoint>, k: nat)
    requires 0 < k <= |vin|
    ensures NoDuplicates(vin[..k]) <==> NoDuplicates(vin[..k - 1]) && vin[k - 1] !in vin[..k - 1]
  {
    assert vin[..k] == vin[..k - 1] + [vin[k - 1]];
  }

  /** A transaction connects exactly if its outputs and their total are in the money range and, unless it is a
      coinbase, its inputs are fine, different and in total in the range, and pay for the outputs; only a coinstake
      need not pay. */
  lemma ConnectsExactly(v: TxMap, src: Source, tx: Tx, checks: Checks)
    ensures TxOk(v, src, tx, checks) <==>
      && (forall i :: 0 <= i < |tx.vout| ==> 0 <= tx.vout[i].value <= MAX_SINGLE_TX)
      && 0 <= ValueOut(tx.vout) <= MAX_SINGLE_TX
      && (tx.IsCoinBase() ||
          (&& (forall i :: 0 <= i < |tx.vin| ==> InputFine(v, src, tx, checks, i)) && NoDuplicates(tx.vin)
           && 0 <= ValueIn(v, src, tx) <= MAX_SINGLE_TX
           && (tx.IsCoinStake() || ValueOut(tx.vout) <= ValueIn(v, src, tx))))
  {
    RangeMeans(tx.vout, |tx.vout|);
    InputsAre(v, src, tx, checks, |tx.vin|);
    TakeAll(tx.vin);
  }

  /** Connecting a transaction that is neither coinbase nor coinstake never raises the value of the unspent
      outputs; what it takes away is the fee, which is in the money range. */
  lemma SpendingCreatesNothing(v: TxMap, src: Source, tx: Tx, pos: DiskPos, checks: Checks)
    requires Consistent(v, src.disk) && tx.id !in v && !tx.IsCoinBase() && !tx.IsCoinStake()
    requires pos != NullPos && pos != MEMPOOL_POS && pos in src.disk && src.disk[pos] == tx
    requires TxOk(v, src, tx, checks)
    ensures var fee := UnspentTotal(v, src.disk) - UnspentTotal(ConnectTx(v, tx, pos), src.disk);
            0 <= fee <= MAX_SINGLE_TX
  {
    TxOkSpendsUnspent(v, src, tx, checks);
    ConnectTxValue(v, src, tx, pos);
    ConnectsExactly(v, src, tx, checks);
  }
}
