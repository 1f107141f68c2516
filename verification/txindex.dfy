/** The transaction index: fetching and connecting inputs, connecting and disconnecting
    blocks (src/main.cpp). Each operation is given twice: as a function on the index
    (`ConnectTx`, `After`, `DisconnectFrom`) and as the source's loops over a database
    with a write batch and a map of queued changes. */
module TxIndex {
  import opened Transactions

  // ---------------------------------------------------------------- the index as a value

  predicate Indexed(v: TxMap, o: OutPoint) {
    o.hash in v && o.n < |v[o.hash].spent|
  }

  predicate IsUnspent(v: TxMap, o: OutPoint) {
    Indexed(v, o) && v[o.hash].spent[o.n] == NullPos
  }

  /** One write of a spent flag. */
  function Mark(v: TxMap, o: OutPoint, p: DiskPos): TxMap
    requires Indexed(v, o)
  {
    v[o.hash := v[o.hash].(spent := v[o.hash].spent[o.n := p])]
  }

  function MarkEntry(e: Entry, h: Hash, outs: set<OutPoint>, p: DiskPos): Entry {
    e.(spent := seq(|e.spent|, n requires 0 <= n < |e.spent| =>
                      if OutPoint(h, n) in outs then p else e.spent[n]))
  }

  /** All outpoints of `outs` carry the flag `p`, everything else is as in `v`. */
  function MarkAll(v: TxMap, outs: set<OutPoint>, p: DiskPos): TxMap {
    map h | h in v :: MarkEntry(v[h], h, outs, p)
  }

  lemma MarkNone(v: TxMap, p: DiskPos)
    ensures MarkAll(v, {}, p) == v
  {
    forall h | h in v ensures MarkEntry(v[h], h, {}, p) == v[h] {
      assert MarkEntry(v[h], h, {}, p).spent == v[h].spent;
    }
  }

  lemma MarkStart(v: TxMap, vin: seq<OutPoint>, p: DiskPos)
    ensures MarkAll(v, OutPoints(vin[..0]), p) == v
  {
    assert OutPoints(vin[..0]) == {};
    MarkNone(v, p);
  }

  lemma TakeAll(vin: seq<OutPoint>)
    ensures vin[..|vin|] == vin
  {
  }

  lemma MarkOneMore(v: TxMap, outs: set<OutPoint>, o: OutPoint, p: DiskPos)
    requires Indexed(v, o)
    ensures Indexed(MarkAll(v, outs, p), o)
    ensures MarkAll(v, outs + {o}, p) == Mark(MarkAll(v, outs, p), o, p)
  {
    var a, b := MarkAll(v, outs + {o}, p), Mark(MarkAll(v, outs, p), o, p);
    forall h | h in v ensures a[h] == b[h] {
      assert a[h].spent == b[h].spent;
    }
  }

  /** What the source's input loops see and do at input `i`: an outpoint already marked by
      an earlier input of the same transaction no longer counts as unspent. */
  lemma MarkNext(v: TxMap, vin: seq<OutPoint>, i: nat, p: DiskPos)
    requires i < |vin| && Indexed(v, vin[i])
    ensures var w := MarkAll(v, OutPoints(vin[..i]), p);
            && Indexed(w, vin[i])
            && MarkAll(v, OutPoints(vin[..i + 1]), p) == Mark(w, vin[i], p)
            && (p != NullPos ==> (IsUnspent(w, vin[i]) <==> IsUnspent(v, vin[i]) && vin[i] !in vin[..i]))
    ensures NoDuplicates(vin[..i + 1]) <==> NoDuplicates(vin[..i]) && vin[i] !in vin[..i]
  {
    assert OutPoints(vin[..i + 1]) == OutPoints(vin[..i]) + {vin[i]};
    assert vin[..i + 1] == vin[..i] + [vin[i]];
    MarkOneMore(v, OutPoints(vin[..i]), vin[i], p);
  }

  /** The index after a transaction at `pos` spent its inputs and was entered. */
  function ConnectTx(v: TxMap, tx: Tx, pos: DiskPos): TxMap {
    var spent := if tx.IsCoinBase() then v else MarkAll(v, OutPoints(tx.vin), pos);
    spent[tx.id := FreshEntry(pos, |tx.vout|)]
  }

  /** The index after a transaction's inputs were released and it was removed. */
  function DisconnectTx(v: TxMap, tx: Tx): TxMap {
    var released := if tx.IsCoinBase() then v else MarkAll(v, OutPoints(tx.vin), NullPos);
    released - {tx.id}
  }

  predicate CanRelease(v: TxMap, tx: Tx) {
    tx.IsCoinBase() || forall i :: 0 <= i < |tx.vin| ==> Indexed(v, tx.vin[i])
  }

  /** Releasing undoes spending, for a transaction not in the index whose inputs were unspent. */
  lemma DisconnectTxUndoesConnectTx(v: TxMap, tx: Tx, pos: DiskPos)
    requires tx.id !in v
    requires SpendsUnspent(v, tx)
    ensures CanRelease(ConnectTx(v, tx, pos), tx)
    ensures DisconnectTx(ConnectTx(v, tx, pos), tx) == v
  {
    var w := DisconnectTx(ConnectTx(v, tx, pos), tx);
    assert w.Keys == v.Keys;
    forall h | h in v ensures w[h] == v[h] {
      assert w[h].spent == v[h].spent;
    }
  }

  // ---------------------------------------------------------------- reading previous transactions

  /** What transactions can be read from: the block files and the memory pool. */
  datatype Source = Source(disk: map<DiskPos, Tx>, mempool: map<Hash, Tx>)

  /** One entry of MapPrevTx. */
  datatype Prev = Prev(entry: Entry, tx: Tx)

  type Inputs = map<Hash, Prev>

  function ReadPrev(v: TxMap, src: Source, h: Hash): Option<Prev> {
    if h !in v then None
    else if v[h].pos == MEMPOOL_POS then
      if h in src.mempool then Some(Prev(v[h], src.mempool[h])) else None
    else if v[h].pos in src.disk then Some(Prev(v[h], src.disk[v[h].pos])) else None
  }

  predicate InRange(p: Prev, n: nat) {
    n < |p.tx.vout| && n < |p.entry.spent|
  }

  /** The previous output can be read and exists. */
  predicate Fetched(v: TxMap, src: Source, o: OutPoint) {
    ReadPrev(v, src, o.hash).Some? && InRange(ReadPrev(v, src, o.hash).value, o.n)
  }

  predicate FetchedTo(v: TxMap, src: Source, vin: seq<OutPoint>, k: nat)
    requires k <= |vin|
  {
    k == 0 || (FetchedTo(v, src, vin, k - 1) && Fetched(v, src, vin[k - 1]))
  }

  predicate FetchOk(v: TxMap, src: Source, tx: Tx) {
    tx.IsCoinBase() || FetchedTo(v, src, tx.vin, |tx.vin|)
  }

  lemma {:induction false} FetchedAt(v: TxMap, src: Source, vin: seq<OutPoint>, k: nat, i: nat)
    requires i < k <= |vin| && FetchedTo(v, src, vin, k)
    ensures Fetched(v, src, vin[i])
  {
    if i < k - 1 {
      FetchedAt(v, src, vin, k - 1, i);
    }
  }

  /** `inputs` holds what the index and the files say about the first `k` inputs, and no more. */
  predicate Holds(v: TxMap, src: Source, tx: Tx, k: nat, inputs: Inputs)
    requires k <= |tx.vin|
  {
    && (forall i :: 0 <= i < k ==> tx.vin[i].hash in inputs)
    && (forall h :: h in inputs ==> ReadPrev(v, src, h) == Some(inputs[h]))
  }

  /** Value of one previous output as FetchInputs reads it, 0 when it cannot be read. */
  function PrevValue(v: TxMap, src: Source, o: OutPoint): int {
    var p := ReadPrev(v, src, o.hash);
    if p.Some? && o.n < |p.value.tx.vout| then p.value.tx.vout[o.n].value else 0
  }

  /** Total of the first `k` inputs. */
  function InTo(v: TxMap, src: Source, vin: seq<OutPoint>, k: nat): int
    requires k <= |vin|
  {
    if k == 0 then 0 else InTo(v, src, vin, k - 1) + PrevValue(v, src, vin[k - 1])
  }

  function ValueIn(v: TxMap, src: Source, tx: Tx): int {
    if tx.IsCoinBase() then 0 else InTo(v, src, tx.vin, |tx.vin|)
  }

  // ---------------------------------------------------------------- what makes a transaction connect

  /** The outcomes of tests that are not part of this model: the remaining rules of
      CheckBlock, the signature-operation limits (per transaction of the block), script
      verification, the maturity walk over recent blocks, and GetCoinAge. */
  datatype Checks = Checks(
    blockOk: bool,
    sigOpsOk: nat -> bool,
    signatureOk: (Tx, Tx, nat) -> bool,
    immature: Entry -> bool,
    coinAgeKnown: bool)

  /** Every one of them passes. */
  function AllFine(): Checks {
    Checks(true, _ => true, (_, _, _) => true, _ => false, true)
  }

  /** The inexpensive tests of the first loop of ConnectInputs, for input `i`. */
  predicate InputOk(v: TxMap, src: Source, tx: Tx, checks: Checks, i: nat)
    requires i < |tx.vin|
  {
    && Fetched(v, src, tx.vin[i])
    && var p := ReadPrev(v, src, tx.vin[i].hash).value;
       var n := tx.vin[i].n;
       && !((p.tx.IsCoinBase() || p.tx.IsCoinStake()) && checks.immature(p.entry))
       && p.tx.time <= tx.time
       && !p.tx.vout[n].IsEmpty()
       && MoneyRange(p.tx.vout[n].value)
       && MoneyRange(InTo(v, src, tx.vin, i + 1))
  }

  predicate InputsOkTo(v: TxMap, src: Source, tx: Tx, checks: Checks, k: nat)
    requires k <= |tx.vin|
  {
    k == 0 || (InputsOkTo(v, src, tx, checks, k - 1) && InputOk(v, src, tx, checks, k - 1))
  }

  /** The tests of the second loop, for input `i`: neither the index nor an earlier input of
      the same transaction spends the output, and the signature is good. */
  predicate Spendable(v: TxMap, src: Source, tx: Tx, checks: Checks, i: nat)
    requires i < |tx.vin|
  {
    && IsUnspent(v, tx.vin[i])
    && tx.vin[i] !in tx.vin[..i]
    && ReadPrev(v, src, tx.vin[i].hash).Some?
    && checks.signatureOk(ReadPrev(v, src, tx.vin[i].hash).value.tx, tx, i)
  }

  predicate SpendableTo(v: TxMap, src: Source, tx: Tx, checks: Checks, k: nat)
    requires k <= |tx.vin|
  {
    k == 0 || (SpendableTo(v, src, tx, checks, k - 1) && Spendable(v, src, tx, checks, k - 1))
  }

  predicate ValuesOk(v: TxMap, src: Source, tx: Tx) {
    !tx.IsCoinStake() ==>
      && OutputsInRange(tx.vout)
      && ValueOut(tx.vout) <= ValueIn(v, src, tx)
      && MoneyRange(ValueIn(v, src, tx) - ValueOut(tx.vout))
  }

  predicate ConnectInputsOk(v: TxMap, src: Source, tx: Tx, checks: Checks) {
    !tx.IsCoinBase() ==>
      && InputsOkTo(v, src, tx, checks, |tx.vin|)
      && SpendableTo(v, src, tx, checks, |tx.vin|)
      && ValuesOk(v, src, tx)
  }

  predicate TxOk(v: TxMap, src: Source, tx: Tx, checks: Checks) {
    && OutputsInRange(tx.vout)
    && FetchOk(v, src, tx)
    && ConnectInputsOk(v, src, tx, checks)
  }

  /** The inputs are pairwise distinct and unspent. */
  predicate SpendsUnspent(v: TxMap, tx: Tx) {
    !tx.IsCoinBase() ==> NoDuplicates(tx.vin) && forall i :: 0 <= i < |tx.vin| ==> IsUnspent(v, tx.vin[i])
  }

  lemma {:induction false} SpendableAt(v: TxMap, src: Source, tx: Tx, checks: Checks, k: nat, i: nat)
    requires i < k <= |tx.vin| && SpendableTo(v, src, tx, checks, k)
    ensures Spendable(v, src, tx, checks, i)
  {
    if i < k - 1 {
      SpendableAt(v, src, tx, checks, k - 1, i);
    }
  }

  lemma {:induction false} InputsOkAt(v: TxMap, src: Source, tx: Tx, checks: Checks, k: nat, i: nat)
    requires i < k <= |tx.vin| && InputsOkTo(v, src, tx, checks, k)
    ensures InputOk(v, src, tx, checks, i)
  {
    if i < k - 1 {
      InputsOkAt(v, src, tx, checks, k - 1, i);
    }
  }

  lemma TxOkSpendsUnspent(v: TxMap, src: Source, tx: Tx, checks: Checks)
    requires TxOk(v, src, tx, checks)
    ensures SpendsUnspent(v, tx)
  {
    if !tx.IsCoinBase() {
      forall i | 0 <= i < |tx.vin| ensures IsUnspent(v, tx.vin[i]) && tx.vin[i] !in tx.vin[..i] {
        SpendableAt(v, src, tx, checks, |tx.vin|, i);
      }
    }
  }

  // ---------------------------------------------------------------- the database

  /** CTxDB: committed records and, inside a transaction, a batch of puts and deletes. */
  class TxDb {
    var committed: TxMap
    var active: bool
    var batch: map<Hash, Option<Entry>>

    constructor ()
      ensures committed == map[] && !active && View() == map[]
    {
      committed, active, batch := map[], false, map[];
    }

    /** The index as Read sees it: pending puts and deletes first, then the disk. */
    function View(): TxMap
      reads this
    {
      if active then Overlay(committed, batch) else committed
    }

    method TxnBegin()
      requires !active
      modifies this
      ensures active && committed == old(committed) && View() == old(View())
    {
      active, batch := true, map[];
      assert View() == committed;
    }

    method TxnAbort()
      modifies this
      ensures !active && committed == old(committed) && View() == committed
    {
      active, batch := false, map[];
    }

    method TxnCommit()
      requires active
      modifies this
      ensures !active && committed == old(View()) && View() == committed
    {
      committed, active, batch := Overlay(committed, batch), false, map[];
    }

    method ReadTxIndex(h: Hash) returns (r: Option<Entry>)
      ensures r == if h in View() then Some(View()[h]) else None
    {
      if active && h in batch {
        return batch[h];
      }
      return if h in committed then Some(committed[h]) else None;
    }

    method UpdateTxIndex(h: Hash, e: Entry)
      modifies this
      ensures active == old(active) && (active ==> committed == old(committed))
      ensures View() == old(View())[h := e]
    {
      if active {
        batch := batch[h := Some(e)];
      } else {
        committed := committed[h := e];
      }
    }

    method EraseTxIndex(h: Hash)
      modifies this
      ensures active == old(active) && (active ==> committed == old(committed))
      ensures View() == old(View()) - {h}
    {
      if active {
        batch := batch[h := None];
      } else {
        committed := committed - {h};
      }
    }
  }

  function Overlay(c: TxMap, b: map<Hash, Option<Entry>>): TxMap {
    map h | h in c.Keys + b.Keys && (h in b ==> b[h].Some?) :: if h in b then b[h].value else c[h]
  }

  // ---------------------------------------------------------------- the source's loops

  /** CTransaction::FetchInputs, called with fBlock or fMiner set. */
  method FetchInputs(db: TxDb, pool: TxMap, src: Source, tx: Tx) returns (r: Option<Inputs>)
    ensures r.Some? <==> FetchOk(db.View() + pool, src, tx)
    ensures r.Some? && !tx.IsCoinBase() ==> Holds(db.View() + pool, src, tx, |tx.vin|, r.value)
  {
    if tx.IsCoinBase() {
      return Some(map[]);
    }
    ghost var v := db.View() + pool;
    var inputs: Inputs := map[];
    for i := 0 to |tx.vin|
      invariant Holds(v, src, tx, i, inputs)
    {
      var h := tx.vin[i].hash;
      if h !in inputs {
        var entry: Option<Entry>;
        if h in pool {
          entry := Some(pool[h]);
        } else {
          entry := db.ReadTxIndex(h);
        }
        var prev: Option<Tx> := None;
        if entry.Some? {
          if entry.value.pos == MEMPOOL_POS {
            prev := if h in src.mempool then Some(src.mempool[h]) else None;
          } else {
            prev := if entry.value.pos in src.disk then Some(src.disk[entry.value.pos]) else None;
          }
        }
        if prev == None {
          NotFetched(v, src, tx, i);
          return None;
        }
        inputs := inputs[h := Prev(entry.value, prev.value)];
      }
    }
    for i := 0 to |tx.vin|
      invariant FetchedTo(v, src, tx.vin, i)
    {
      assert ReadPrev(v, src, tx.vin[i].hash) == Some(inputs[tx.vin[i].hash]);
      if !InRange(inputs[tx.vin[i].hash], tx.vin[i].n) {
        NotFetched(v, src, tx, i);
        return None;
      }
    }
    return Some(inputs);
  }

  lemma NotFetched(v: TxMap, src: Source, tx: Tx, i: nat)
    requires i < |tx.vin| && !Fetched(v, src, tx.vin[i])
    ensures !FetchedTo(v, src, tx.vin, |tx.vin|)
  {
    if FetchedTo(v, src, tx.vin, |tx.vin|) {
      FetchedAt(v, src, tx.vin, |tx.vin|, i);
    }
  }

  /** GetOutputFor finds the output; otherwise it throws. */
  predicate Found(inputs: Inputs, o: OutPoint) {
    o.hash in inputs && o.n < |inputs[o.hash].tx.vout|
  }

  predicate AllFound(inputs: Inputs, vin: seq<OutPoint>) {
    forall i :: 0 <= i < |vin| ==> Found(inputs, vin[i])
  }

  /** Total of the first `k` inputs as the fetched transactions give it. */
  function FoundTo(inputs: Inputs, vin: seq<OutPoint>, k: nat): int
    requires k <= |vin| && AllFound(inputs, vin)
  {
    if k == 0 then 0 else FoundTo(inputs, vin, k - 1) + inputs[vin[k - 1].hash].tx.vout[vin[k - 1].n].value
  }

  /** CTransaction::GetValueMapIn: None stands for the exception. */
  method GetValueMapIn(tx: Tx, inputs: Inputs) returns (r: Option<int>)
    ensures r == if tx.IsCoinBase() then Some(0)
                 else if AllFound(inputs, tx.vin) then Some(FoundTo(inputs, tx.vin, |tx.vin|)) else None
  {
    if tx.IsCoinBase() { return Some(0); }
    var total := 0;
    for i := 0 to |tx.vin|
      invariant forall j :: 0 <= j < i ==> Found(inputs, tx.vin[j])
      invariant AllFound(inputs, tx.vin) ==> total == FoundTo(inputs, tx.vin, i)
    {
      if !Found(inputs, tx.vin[i]) { return None; }
      total := total + inputs[tx.vin[i].hash].tx.vout[tx.vin[i].n].value;
    }
    return Some(total);
  }

  /** After FetchInputs has succeeded, every output is found, with the value that index and files give. */
  lemma {:induction false} FoundIs(v: TxMap, src: Source, tx: Tx, inputs: Inputs, k: nat)
    requires !tx.IsCoinBase() && FetchOk(v, src, tx) && Holds(v, src, tx, |tx.vin|, inputs) && k <= |tx.vin|
    ensures AllFound(inputs, tx.vin) && FoundTo(inputs, tx.vin, k) == InTo(v, src, tx.vin, k)
  {
    forall i | 0 <= i < |tx.vin| ensures Found(inputs, tx.vin[i]) {
      FetchedAt(v, src, tx.vin, |tx.vin|, i);
    }
    if k > 0 {
      FoundIs(v, src, tx, inputs, k - 1);
    }
  }

  /** First loop of CTransaction::ConnectInputs: the inexpensive tests, with the running total. */
  method CheckInputs(tx: Tx, inputs: Inputs, checks: Checks, ghost v: TxMap, ghost src: Source)
    returns (ok: bool, valueIn: int)
    requires !tx.IsCoinBase() && FetchOk(v, src, tx) && Holds(v, src, tx, |tx.vin|, inputs)
    ensures ok <==> InputsOkTo(v, src, tx, checks, |tx.vin|)
    ensures ok ==> valueIn == ValueIn(v, src, tx)
  {
    ok, valueIn := true, 0;
    for i := 0 to |tx.vin|
      invariant ok && valueIn == InTo(v, src, tx.vin, i)
      invariant InputsOkTo(v, src, tx, checks, i)
    {
      var o := tx.vin[i];
      var p := inputs[o.hash];
      FetchedAt(v, src, tx.vin, |tx.vin|, i);
      ok := o.n < |p.tx.vout| && o.n < |p.entry.spent|;
      ok := ok && !((p.tx.IsCoinBase() || p.tx.IsCoinStake()) && checks.immature(p.entry));
      ok := ok && p.tx.time <= tx.time && !p.tx.vout[o.n].IsEmpty();
      if ok {
        valueIn := valueIn + p.tx.vout[o.n].value;
        ok := MoneyRange(p.tx.vout[o.n].value) && MoneyRange(valueIn);
      }
      if !ok {
        NotInputsOk(v, src, tx, checks, i);
        return;
      }
    }
  }

  lemma NotInputsOk(v: TxMap, src: Source, tx: Tx, checks: Checks, i: nat)
    requires i < |tx.vin| && !InputOk(v, src, tx, checks, i)
    ensures !InputsOkTo(v, src, tx, checks, |tx.vin|)
  {
    if InputsOkTo(v, src, tx, checks, |tx.vin|) {
      InputsOkAt(v, src, tx, checks, |tx.vin|, i);
    }
  }

  /** `inputs` are working copies of the records in `w`, for the transactions of `inputs0`. */
  predicate Copies(w: TxMap, inputs0: Inputs, inputs: Inputs) {
    && inputs.Keys == inputs0.Keys
    && forall h :: h in inputs ==> inputs[h].tx == inputs0[h].tx && h in w && w[h] == inputs[h].entry
  }

  /** Second loop of CTransaction::ConnectInputs: the double-spend test and the marking,
      through the local copies of the index records and the map of queued changes. */
  method SpendInputs(tx: Tx, inputs0: Inputs, pool0: TxMap, pos: DiskPos, checks: Checks,
                     ghost db: TxMap, ghost src: Source)
    returns (ok: bool, pool: TxMap)
    requires !tx.IsCoinBase() && FetchOk(db + pool0, src, tx)
    requires Holds(db + pool0, src, tx, |tx.vin|, inputs0)
    requires pos != NullPos
    ensures ok <==> SpendableTo(db + pool0, src, tx, checks, |tx.vin|)
    ensures ok ==> db + pool == MarkAll(db + pool0, OutPoints(tx.vin), pos)
  {
    ghost var v := db + pool0;
    var inputs := inputs0;
    ok, pool := true, pool0;
    MarkStart(v, tx.vin, pos);
    for i := 0 to |tx.vin|
      invariant Marked(v, tx, pos, i, inputs0, inputs, db + pool)
      invariant SpendableTo(v, src, tx, checks, i)
    {
      ok, inputs, pool := SpendOne(tx, i, inputs0, inputs, pool, pos, checks, v, db, src);
      if !ok {
        NotSpendable(v, src, tx, checks, i);
        return;
      }
    }
    TakeAll(tx.vin);
  }

  /** One round of that loop. */
  method SpendOne(tx: Tx, i: nat, ghost inputs0: Inputs, inputs1: Inputs, pool1: TxMap, pos: DiskPos, checks: Checks,
                  ghost v: TxMap, ghost db: TxMap, ghost src: Source)
    returns (ok: bool, inputs: Inputs, pool: TxMap)
    requires i < |tx.vin| && pos != NullPos && !tx.IsCoinBase() && FetchOk(v, src, tx)
    requires Holds(v, src, tx, |tx.vin|, inputs0) && Marked(v, tx, pos, i, inputs0, inputs1, db + pool1)
    ensures ok <==> Spendable(v, src, tx, checks, i)
    ensures ok ==> Marked(v, tx, pos, i + 1, inputs0, inputs, db + pool)
  {
    inputs, pool := inputs1, pool1;
    var o := tx.vin[i];
    var p := inputs[o.hash];
    SpendStep(v, src, tx, checks, pos, i, inputs0, inputs, db + pool);
    if p.entry.spent[o.n] != NullPos || !checks.signatureOk(p.tx, tx, i) {
      return false, inputs, pool;
    }
    var entry := p.entry.(spent := p.entry.spent[o.n := pos]);
    inputs := inputs[o.hash := Prev(entry, p.tx)];
    MergeUpdate(db, pool, o.hash, entry);
    pool := pool[o.hash := entry];
    ok := true;
  }

  /** The first `i` inputs are marked in `w`, and the working copies agree with `w`. */
  predicate Marked(v: TxMap, tx: Tx, pos: DiskPos, i: nat, inputs0: Inputs, inputs: Inputs, w: TxMap)
    requires i <= |tx.vin|
  {
    && w == MarkAll(v, OutPoints(tx.vin[..i]), pos)
    && Copies(w, inputs0, inputs)
    && forall k :: i <= k < |tx.vin| ==> tx.vin[k].hash in inputs0
  }

  lemma SpendStep(v: TxMap, src: Source, tx: Tx, checks: Checks, pos: DiskPos, i: nat,
                  inputs0: Inputs, inputs: Inputs, w: TxMap)
    requires i < |tx.vin| && pos != NullPos && !tx.IsCoinBase()
    requires FetchOk(v, src, tx) && Holds(v, src, tx, |tx.vin|, inputs0)
    requires Marked(v, tx, pos, i, inputs0, inputs, w)
    ensures var o, p := tx.vin[i], inputs[tx.vin[i].hash];
            && o.n < |p.entry.spent| && Indexed(w, o)
            && (Spendable(v, src, tx, checks, i) <==> p.entry.spent[o.n] == NullPos && checks.signatureOk(p.tx, tx, i))
            && Marked(v, tx, pos, i + 1, inputs0,
                      inputs[o.hash := Prev(p.entry.(spent := p.entry.spent[o.n := pos]), p.tx)], Mark(w, o, pos))
  {
    FetchedAt(v, src, tx.vin, |tx.vin|, i);
    MarkNext(v, tx.vin, i, pos);
    CopiesUpdate(w, inputs0, inputs, tx.vin[i], pos);
  }

  lemma CopiesUpdate(w: TxMap, inputs0: Inputs, inputs: Inputs, o: OutPoint, pos: DiskPos)
    requires Copies(w, inputs0, inputs) && o.hash in inputs && Indexed(w, o)
    ensures var p := inputs[o.hash];
            Copies(Mark(w, o, pos), inputs0, inputs[o.hash := Prev(p.entry.(spent := p.entry.spent[o.n := pos]), p.tx)])
  {
  }

  lemma MergeUpdate(db: TxMap, pool: TxMap, h: Hash, e: Entry)
    ensures db + pool[h := e] == (db + pool)[h := e]
  {
  }

  lemma NotSpendable(v: TxMap, src: Source, tx: Tx, checks: Checks, i: nat)
    requires i < |tx.vin| && !Spendable(v, src, tx, checks, i)
    ensures !SpendableTo(v, src, tx, checks, |tx.vin|)
  {
    if SpendableTo(v, src, tx, checks, |tx.vin|) {
      SpendableAt(v, src, tx, checks, |tx.vin|, i);
    }
  }

  /** CTransaction::ConnectInputs with fBlock or fMiner set. */
  method ConnectInputs(tx: Tx, inputs: Inputs, pool0: TxMap, pos: DiskPos, checks: Checks,
                       ghost db: TxMap, ghost src: Source)
    returns (ok: bool, pool: TxMap)
    requires FetchOk(db + pool0, src, tx)
    requires !tx.IsCoinBase() ==> Holds(db + pool0, src, tx, |tx.vin|, inputs)
    requires pos != NullPos
    ensures ok <==> ConnectInputsOk(db + pool0, src, tx, checks)
    ensures ok ==> db + pool == if tx.IsCoinBase() then db + pool0 else MarkAll(db + pool0, OutPoints(tx.vin), pos)
  {
    if tx.IsCoinBase() {
      return true, pool0;
    }
    var fine, valueIn := CheckInputs(tx, inputs, checks, db + pool0, src);
    if !fine {
      return false, pool0;
    }
    ok, pool := SpendInputs(tx, inputs, pool0, pos, checks, db, src);
    if ok && !tx.IsCoinStake() {
      var out := GetValueOut(tx);
      if out == None || valueIn < out.value || !MoneyRange(valueIn - out.value) {
        return false, pool;
      }
    }
  }

  /** CTransaction::DisconnectInputs. */
  method DisconnectInputs(db: TxDb, tx: Tx) returns (ok: bool)
    modifies db
    ensures db.active == old(db.active) && (db.active ==> db.committed == old(db.committed))
    ensures ok <==> CanRelease(old(db.View()), tx)
    ensures ok ==> db.View() == DisconnectTx(old(db.View()), tx)
  {
    ghost var v := db.View();
    if !tx.IsCoinBase() {
      MarkStart(v, tx.vin, NullPos);
      for i := 0 to |tx.vin|
        invariant db.active == old(db.active) && (db.active ==> db.committed == old(db.committed))
        invariant db.View() == MarkAll(v, OutPoints(tx.vin[..i]), NullPos)
        invariant forall j :: 0 <= j < i ==> Indexed(v, tx.vin[j])
      {
        var o := tx.vin[i];
        var e := db.ReadTxIndex(o.hash);
        if e == None || o.n >= |e.value.spent| {
          return false;
        }
        MarkNext(v, tx.vin, i, NullPos);
        db.UpdateTxIndex(o.hash, e.value.(spent := e.value.spent[o.n := NullPos]));
      }
      TakeAll(tx.vin);
    }
    db.EraseTxIndex(tx.id);
    return true;
  }
}
