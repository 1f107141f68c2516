/** Block assembly (the collection loops of CreateNewBlock in src/miner.cpp): a priority queue that
    releases transactions when the ones they depend on are in the block. Priorities, fees per size,
    signature operations and time tests are given numbers and answers. */
module Miner {
  import opened Transactions
  import opened TxIndex
  import opened Ordering

  datatype Rank = Rank(priority: real, fee: real)

  /** TxPriorityCompare: `a` comes after `b`. */
  predicate Less(byFee: bool, a: Rank, b: Rank) {
    if byFee then if a.fee == b.fee then a.priority < b.priority else a.fee < b.fee
    else if a.priority == b.priority then a.fee < b.fee else a.priority < b.priority
  }

  /** What the loops look at: the memory pool, the chain's index, limits and outside answers. */
  datatype Setting = Setting(pool: map<Hash, Tx>, chain: TxMap, disk: map<DiskPos, Tx>, checks: Checks,
                             rank: Hash -> Rank, legacyOps: Hash -> nat, scriptOps: Hash -> nat,
                             isFinal: Hash -> bool, timeOk: Hash -> bool,
                             maxSize: nat, minSize: nat, prioritySize: int, minFee: real, maxOps: nat)

  const BASE_SIZE: nat := 1000
  const BASE_OPS: nat := 100
  const HIGH_PRIORITY: real := 57600000.0

  function Src(s: Setting): Source {
    Source(s.disk, s.pool)
  }

  /** ReadFromDisk through the index succeeds. */
  predicate OnChain(s: Setting, o: OutPoint) {
    o.hash in s.chain && s.chain[o.hash].pos in s.disk && o.n < |s.disk[s.chain[o.hash].pos].vout|
  }

  predicate Eligible(s: Setting, h: Hash) {
    h in s.pool && !s.pool[h].IsCoinBase() && !s.pool[h].IsCoinStake() && s.isFinal(h)
  }

  /** What the memory pool guarantees: transactions under their own hash, none of them on the chain,
      amounts in range, and every input on the chain or in the pool. */
  ghost predicate PoolOk(s: Setting) {
    && (forall h :: h in s.pool ==> s.pool[h].id == h && h !in s.chain && OutputsInRange(s.pool[h].vout))
    && (forall h, i :: h in s.pool && 0 <= i < |s.pool[h].vin| ==>
          OnChain(s, s.pool[h].vin[i]) || s.pool[h].vin[i].hash in s.pool)
  }

  /** The transactions of the pool that the first `k` inputs wait for. */
  function MissingTo(s: Setting, vin: seq<OutPoint>, k: nat): set<Hash>
    requires k <= |vin|
  {
    if k == 0 then {} else MissingTo(s, vin, k - 1) + if OnChain(s, vin[k - 1]) then {} else {vin[k - 1].hash}
  }

  function Missing(s: Setting, h: Hash): set<Hash> {
    if h in s.pool then MissingTo(s, s.pool[h].vin, |s.pool[h].vin|) else {}
  }

  // ---------------------------------------------------------------- collecting the pool

  /** COrphan. */
  datatype Orphan = Orphan(tx: Hash, dependsOn: set<Hash>)

  /** mapDependers, with the positions of the orphans in vOrphan. */
  type Dependers = map<Hash, seq<nat>>

  function Deps(d: Dependers, h: Hash): seq<nat> {
    if h in d then d[h] else []
  }

  predicate Lists(d: Dependers, h: Hash, o: nat) {
    o in Deps(d, h)
  }

  /** mapDependers lists an orphan under exactly the transactions it waits for. */
  ghost predicate DependersOk(orphans: seq<Orphan>, d: Dependers) {
    forall h, o: nat :: Lists(d, h, o) <==> o < |orphans| && h in orphans[o].dependsOn
  }

  ghost predicate OrphanOk(s: Setting, done: set<Hash>, o: Orphan) {
    o.tx in done && Eligible(s, o.tx) && o.dependsOn == Missing(s, o.tx) && o.dependsOn != {}
  }

  ghost predicate ReadyOk(s: Setting, done: set<Hash>, h: Hash) {
    h in done && Eligible(s, h) && Missing(s, h) == {}
  }

  ghost predicate Sorted(heap: seq<Hash>, orphans: seq<Orphan>, h: Hash) {
    h in heap || exists o :: 0 <= o < |orphans| && orphans[o].tx == h
  }

  /** Every eligible transaction walked over is in the heap or an orphan, once. */
  ghost predicate Collected(s: Setting, done: set<Hash>, heap: seq<Hash>, orphans: seq<Orphan>, d: Dependers) {
    && (forall o :: 0 <= o < |orphans| ==> OrphanOk(s, done, orphans[o]))
    && (forall i :: 0 <= i < |heap| ==> ReadyOk(s, done, heap[i]))
    && NoDuplicates(heap)
    && (forall o, p :: 0 <= o < p < |orphans| ==> orphans[o].tx != orphans[p].tx)
    && (forall h :: h in done && Eligible(s, h) ==> Sorted(heap, orphans, h))
    && DependersOk(orphans, d)
  }

  /** The loop over the inputs of one transaction. */
  method Inspect(s: Setting, h: Hash, d0: Dependers, o: nat) returns (dependsOn: set<Hash>, d: Dependers)
    requires h in s.pool && forall x :: !Lists(d0, x, o)
    ensures dependsOn == Missing(s, h)
    ensures forall x, p: nat :: Lists(d, x, p) <==> Lists(d0, x, p) || (p == o && x in dependsOn)
  {
    var vin := s.pool[h].vin;
    dependsOn, d := {}, d0;
    for i := 0 to |vin|
      invariant dependsOn == MissingTo(s, vin, i)
      invariant forall x, p: nat :: Lists(d, x, p) <==> Lists(d0, x, p) || (p == o && x in dependsOn)
    {
      if !OnChain(s, vin[i]) {
        d := Listed(d, vin[i].hash, o);
        dependsOn := dependsOn + {vin[i].hash};
      }
    }
  }

  function Listed(d: Dependers, h: Hash, o: nat): (r: Dependers)
    ensures forall x, p: nat :: Lists(r, x, p) <==> Lists(d, x, p) || (p == o && x == h)
  {
    d[h := Deps(d, h) + [o]]
  }

  /** The walk over the memory pool. */
  method Collect(s: Setting) returns (heap: seq<Hash>, orphans: seq<Orphan>, d: Dependers)
    requires PoolOk(s)
    ensures Collected(s, s.pool.Keys, heap, orphans, d)
  {
    var order := Ascending(s.pool.Keys);
    heap, orphans, d := [], [], map[];
    ghost var done: set<Hash> := {};
    CollectStart(s);
    var i := 0;
    while i < |order|
      invariant i <= |order| && done == Members(order[..i]) && Collected(s, done, heap, orphans, d)
    {
      var h := order[i];
      WalkNext(s.pool.Keys, i);
      if Eligible(s, h) {
        NotListed(orphans, d);
        var dependsOn, d' := Inspect(s, h, d, |orphans|);
        CollectNext(s, done, heap, orphans, d, h, d');
        if dependsOn != {} {
          orphans, d := orphans + [Orphan(h, dependsOn)], d';
        } else {
          heap, d := heap + [h], d';
        }
      } else {
        CollectSkip(s, done, heap, orphans, d, h);
      }
      done := done + {h};
      i := i + 1;
    }
    WalkEnd(s.pool.Keys);
  }

  lemma CollectStart(s: Setting)
    ensures Collected(s, {}, [], [], map[])
  {
  }

  lemma NotListed(orphans: seq<Orphan>, d: Dependers)
    requires DependersOk(orphans, d)
    ensures forall x :: !Lists(d, x, |orphans|)
  {
  }

  lemma WalkNext(keys: set<Hash>, i: nat)
    requires i < |Ascending(keys)|
    ensures var q := Ascending(keys); q[i] !in Members(q[..i]) && Members(q[..i + 1]) == Members(q[..i]) + {q[i]}
  {
    AscendingLists(keys);
    var q := Ascending(keys);
    assert q[..i + 1] == q[..i] + [q[i]];
  }

  lemma WalkEnd(keys: set<Hash>)
    ensures var q := Ascending(keys); Members(q[..|q|]) == keys
  {
    AscendingLists(keys);
    assert Ascending(keys)[..|Ascending(keys)|] == Ascending(keys);
  }

  lemma CollectSkip(s: Setting, done: set<Hash>, heap: seq<Hash>, orphans: seq<Orphan>, d: Dependers, h: Hash)
    requires Collected(s, done, heap, orphans, d) && !Eligible(s, h)
    ensures Collected(s, done + {h}, heap, orphans, d)
  {
    forall o | 0 <= o < |orphans| ensures OrphanOk(s, done + {h}, orphans[o]) {
      assert OrphanOk(s, done, orphans[o]);
    }
    forall i | 0 <= i < |heap| ensures ReadyOk(s, done + {h}, heap[i]) {
      assert ReadyOk(s, done, heap[i]);
    }
  }

  lemma CollectNext(s: Setting, done: set<Hash>, heap: seq<Hash>, orphans: seq<Orphan>, d: Dependers, h: Hash,
                    d': Dependers)
    requires Collected(s, done, heap, orphans, d) && Eligible(s, h) && h !in done
    requires forall x, p: nat :: Lists(d', x, p) <==> Lists(d, x, p) || (p == |orphans| && x in Missing(s, h))
    ensures Missing(s, h) != {} ==> Collected(s, done + {h}, heap, orphans + [Orphan(h, Missing(s, h))], d')
    ensures Missing(s, h) == {} ==> Collected(s, done + {h}, heap + [h], orphans, d')
  {
    forall o | 0 <= o < |orphans| ensures OrphanOk(s, done + {h}, orphans[o]) && orphans[o].tx != h {
      assert OrphanOk(s, done, orphans[o]);
    }
    forall i | 0 <= i < |heap| ensures ReadyOk(s, done + {h}, heap[i]) && heap[i] != h {
      assert ReadyOk(s, done, heap[i]);
    }
    if Missing(s, h) != {} {
      var orphans' := orphans + [Orphan(h, Missing(s, h))];
      assert orphans'[|orphans|].tx == h;
      forall x | x in done + {h} && Eligible(s, x) ensures Sorted(heap, orphans', x) {
        if x != h {
          SortedStill(heap, orphans, heap, orphans', x);
        }
      }
    } else {
      assert (heap + [h])[|heap|] == h;
      forall x | x in done + {h} && Eligible(s, x) ensures Sorted(heap + [h], orphans, x) {
        if x != h {
          SortedStill(heap, orphans, heap + [h], orphans, x);
        }
      }
    }
  }

  lemma SortedStill(heap: seq<Hash>, orphans: seq<Orphan>, heap': seq<Hash>, orphans': seq<Orphan>, h: Hash)
    requires Sorted(heap, orphans, h) && heap <= heap' && orphans <= orphans'
    ensures Sorted(heap', orphans', h)
  {
    if h !in heap {
      var o :| 0 <= o < |orphans| && orphans[o].tx == h;
      assert orphans'[o].tx == h;
    }
  }

  // ---------------------------------------------------------------- what the assembled block is worth

  /** The index with the first `n` transactions of the block in it. */
  function After(s: Setting, block: seq<Tx>, n: nat): TxMap
    requires n <= |block|
  {
    if n == 0 then s.chain else ConnectTx(After(s, block, n - 1), block[n - 1], MEMPOOL_POS)
  }

  /** Each transaction connects after the ones before it. */
  ghost predicate AllConnect(s: Setting, block: seq<Tx>, n: nat)
    requires n <= |block|
  {
    forall j :: 0 <= j < n ==> Connects(s, block, j)
  }

  ghost predicate Connects(s: Setting, block: seq<Tx>, j: nat)
    requires j < |block|
  {
    TxOk(After(s, block, j), Src(s), block[j], s.checks)
  }

  /** The transactions are different, from the pool, and neither coinbase nor coinstake. */
  ghost predicate FromPool(s: Setting, block: seq<Tx>) {
    && (forall i :: 0 <= i < |block| ==>
      Eligible(s, block[i].id) && s.pool[block[i].id] == block[i] && block[i].id !in s.chain)
    && (forall i, j :: 0 <= i < j < |block| ==> block[i].id != block[j].id)
  }

  function IdsTo(block: seq<Tx>, n: nat): set<Hash>
    requires n <= |block|
  {
    if n == 0 then {} else IdsTo(block, n - 1) + {block[n - 1].id}
  }

  lemma {:induction false} IdsAre(block: seq<Tx>, n: nat, h: Hash)
    requires n <= |block|
    ensures h in IdsTo(block, n) <==> exists i :: 0 <= i < n && block[i].id == h
  {
    if n > 0 {
      IdsAre(block, n - 1, h);
    }
  }

  lemma {:induction false} KeysAfter(s: Setting, block: seq<Tx>, n: nat)
    requires n <= |block|
    ensures After(s, block, n).Keys == s.chain.Keys + IdsTo(block, n)
  {
    if n > 0 {
      KeysAfter(s, block, n - 1);
    }
  }

  /** Every input of a transaction of the block is on the chain or from a transaction before it. */
  lemma ParentsFirst(s: Setting, block: seq<Tx>, j: nat, i: nat)
    requires FromPool(s, block) && AllConnect(s, block, |block|) && j < |block| && i < |block[j].vin|
    ensures block[j].vin[i].hash in s.chain || exists k :: 0 <= k < j && block[k].id == block[j].vin[i].hash
  {
    assert Connects(s, block, j);
    FetchedAt(After(s, block, j), Src(s), block[j].vin, |block[j].vin|, i);
    KeysAfter(s, block, j);
    var h := block[j].vin[i].hash;
    assert h in After(s, block, j).Keys;
    IdsAre(block, j, h);
  }

  lemma NotYetThere(s: Setting, block: seq<Tx>, k: nat)
    requires FromPool(s, block) && k < |block|
    ensures block[k].id !in After(s, block, k) && !block[k].IsCoinBase()
  {
    KeysAfter(s, block, k);
    IdsAre(block, k, block[k].id);
    assert block[k].id !in After(s, block, k).Keys;
    assert Eligible(s, block[k].id);
  }

  /** A spent output stays spent. */
  lemma {:induction false} StaysSpent(s: Setting, block: seq<Tx>, j: nat, k: nat, o: OutPoint)
    requires FromPool(s, block) && j < k <= |block| && o in block[j].vin
    requires Indexed(After(s, block, j), o)
    ensures Indexed(After(s, block, k), o) && !IsUnspent(After(s, block, k), o)
  {
    var v, tx := After(s, block, k - 1), block[k - 1];
    NotYetThere(s, block, k - 1);
    if j < k - 1 {
      StaysSpent(s, block, j, k - 1, o);
    } else {
      assert o in OutPoints(tx.vin);
    }
    SpentOnly(v, tx, o);
  }

  lemma SpentOnly(v: TxMap, tx: Tx, o: OutPoint)
    requires Indexed(v, o) && o.hash != tx.id && !tx.IsCoinBase() && (!IsUnspent(v, o) || o in tx.vin)
    ensures Indexed(ConnectTx(v, tx, MEMPOOL_POS), o) && !IsUnspent(ConnectTx(v, tx, MEMPOOL_POS), o)
  {
    assert ConnectTx(v, tx, MEMPOOL_POS)[o.hash] == MarkEntry(v[o.hash], o.hash, OutPoints(tx.vin), MEMPOOL_POS);
  }

  /** No output is spent twice in the block. */
  lemma NoDoubleSpend(s: Setting, block: seq<Tx>, j: nat, a: nat, k: nat, b: nat)
    requires FromPool(s, block) && AllConnect(s, block, |block|)
    requires j <= k < |block| && a < |block[j].vin| && b < |block[k].vin| && (j == k ==> a != b)
    ensures block[j].vin[a] != block[k].vin[b]
  {
    assert Connects(s, block, j) && Connects(s, block, k);
    TxOkSpendsUnspent(After(s, block, j), Src(s), block[j], s.checks);
    TxOkSpendsUnspent(After(s, block, k), Src(s), block[k], s.checks);
    assert IsUnspent(After(s, block, j), block[j].vin[a]) && IsUnspent(After(s, block, k), block[k].vin[b]);
    if j < k {
      StaysSpent(s, block, j, k, block[j].vin[a]);
    }
  }

  function SizeTo(block: seq<Tx>, n: nat): nat
    requires n <= |block|
  {
    if n == 0 then BASE_SIZE else SizeTo(block, n - 1) + block[n - 1].size
  }

  function OpsTo(s: Setting, block: seq<Tx>, n: nat): nat
    requires n <= |block|
  {
    if n == 0 then BASE_OPS else OpsTo(s, block, n - 1) + s.legacyOps(block[n - 1].id) + s.scriptOps(block[n - 1].id)
  }

  function FeesTo(s: Setting, block: seq<Tx>, n: nat): int
    requires n <= |block|
  {
    if n == 0 then 0
    else FeesTo(s, block, n - 1) + ValueIn(After(s, block, n - 1), Src(s), block[n - 1]) - ValueOut(block[n - 1].vout)
  }

  /** The block under construction with the running totals and mapTestPool. */
  datatype Draft = Draft(block: seq<Tx>, test: TxMap, size: nat, ops: nat, fees: int, byFee: bool)

  /** The totals are those of the block, and within the limits once something is in it. */
  ghost predicate DraftOk(s: Setting, d: Draft) {
    FromPool(s, d.block) && AllConnect(s, d.block, |d.block|) && SumsOk(s, d)
  }

  ghost predicate SumsOk(s: Setting, d: Draft) {
    && d.size == SizeTo(d.block, |d.block|) && d.ops == OpsTo(s, d.block, |d.block|)
    && d.fees == FeesTo(s, d.block, |d.block|)
    && (d.block != [] ==> d.size < s.maxSize && d.ops < s.maxOps)
  }

  /** mapTestPool over the index on disk is the index with the block in it. */
  ghost predicate TestOk(s: Setting, d: Draft) {
    s.chain + d.test == After(s, d.block, |d.block|)
  }

  function Grown(s: Setting, d: Draft, tx: Tx, test: TxMap, fee: int): Draft {
    d.(block := d.block + [tx], test := test, size := d.size + tx.size,
       ops := d.ops + s.legacyOps(tx.id) + s.scriptOps(tx.id), fees := d.fees + fee)
  }

  lemma {:induction false} SameStart(s: Setting, block: seq<Tx>, tx: Tx, n: nat)
    requires n <= |block|
    ensures After(s, block + [tx], n) == After(s, block, n) && SizeTo(block + [tx], n) == SizeTo(block, n)
    ensures OpsTo(s, block + [tx], n) == OpsTo(s, block, n) && FeesTo(s, block + [tx], n) == FeesTo(s, block, n)
    ensures IdsTo(block + [tx], n) == IdsTo(block, n)
  {
    if n > 0 {
      SameStart(s, block, tx, n - 1);
    }
  }

  lemma GrowOk(s: Setting, d: Draft, tx: Tx, v: TxMap, test: TxMap, fee: int)
    requires DraftOk(s, d) && Eligible(s, tx.id) && s.pool[tx.id] == tx && tx.id !in s.chain
      && tx.id !in IdsTo(d.block, |d.block|)
    requires v == After(s, d.block, |d.block|) && TxOk(v, Src(s), tx, s.checks)
    requires fee == ValueIn(v, Src(s), tx) - ValueOut(tx.vout)
    requires d.size + tx.size < s.maxSize && d.ops + s.legacyOps(tx.id) + s.scriptOps(tx.id) < s.maxOps
    ensures DraftOk(s, Grown(s, d, tx, test, fee))
    ensures IdsTo(d.block + [tx], |d.block| + 1) == IdsTo(d.block, |d.block|) + {tx.id}
  {
    GrowFromPool(s, d.block, tx);
    GrowConnects(s, d.block, tx, v);
    GrowSums(s, d, tx, test, fee);
  }

  lemma ReorderOk(s: Setting, d: Draft, byFee: bool)
    requires DraftOk(s, d) && TestOk(s, d)
    ensures DraftOk(s, d.(byFee := byFee)) && TestOk(s, d.(byFee := byFee))
  {
  }

  lemma GrowTest(s: Setting, d: Draft, tx: Tx, v: TxMap, test: TxMap, fee: int)
    requires v == After(s, d.block, |d.block|) && s.chain + test == ConnectTx(v, tx, MEMPOOL_POS)
    ensures TestOk(s, Grown(s, d, tx, test, fee))
  {
    GrowTotals(s, d.block, tx);
  }

  lemma GrowSums(s: Setting, d: Draft, tx: Tx, test: TxMap, fee: int)
    requires SumsOk(s, d) && fee == ValueIn(After(s, d.block, |d.block|), Src(s), tx) - ValueOut(tx.vout)
    requires d.size + tx.size < s.maxSize && d.ops + s.legacyOps(tx.id) + s.scriptOps(tx.id) < s.maxOps
    ensures SumsOk(s, Grown(s, d, tx, test, fee))
    ensures IdsTo(d.block + [tx], |d.block| + 1) == IdsTo(d.block, |d.block|) + {tx.id}
  {
    GrowTotals(s, d.block, tx);
  }

  lemma GrowTotals(s: Setting, block: seq<Tx>, tx: Tx)
    ensures var b, n := block + [tx], |block|;
            && SizeTo(b, n + 1) == SizeTo(block, n) + tx.size
            && OpsTo(s, b, n + 1) == OpsTo(s, block, n) + s.legacyOps(tx.id) + s.scriptOps(tx.id)
            && FeesTo(s, b, n + 1) == FeesTo(s, block, n) + ValueIn(After(s, block, n), Src(s), tx) - ValueOut(tx.vout)
            && After(s, b, n + 1) == ConnectTx(After(s, block, n), tx, MEMPOOL_POS)
            && IdsTo(b, n + 1) == IdsTo(block, n) + {tx.id}
  {
    SameStart(s, block, tx, |block|);
    assert (block + [tx])[|block|] == tx;
  }

  lemma GrowConnects(s: Setting, block: seq<Tx>, tx: Tx, v: TxMap)
    requires AllConnect(s, block, |block|) && v == After(s, block, |block|) && TxOk(v, Src(s), tx, s.checks)
    ensures AllConnect(s, block + [tx], |block| + 1)
  {
    forall j | 0 <= j < |block| + 1 ensures Connects(s, block + [tx], j) {
      SameStart(s, block, tx, j);
      if j < |block| {
        assert Connects(s, block, j);
      }
    }
  }

  lemma GrowFromPool(s: Setting, block: seq<Tx>, tx: Tx)
    requires FromPool(s, block) && Eligible(s, tx.id) && s.pool[tx.id] == tx && tx.id !in s.chain
    requires tx.id !in IdsTo(block, |block|)
    ensures FromPool(s, block + [tx])
  {
    IdsAre(block, |block|, tx.id);
  }

  // ---------------------------------------------------------------- the queue

  /** An orphan waits for exactly the parents that are not in the block yet. */
  ghost predicate Waits(s: Setting, o: Orphan, included: set<Hash>) {
    Eligible(s, o.tx) && o.dependsOn == Missing(s, o.tx) - included && Missing(s, o.tx) != {}
  }

  ghost predicate OrphansOk(s: Setting, orphans: seq<Orphan>, included: set<Hash>) {
    && (forall o :: 0 <= o < |orphans| ==> Waits(s, orphans[o], included))
    && (forall o, p :: 0 <= o < p < |orphans| ==> orphans[o].tx != orphans[p].tx)
  }

  ghost predicate ListedOk(s: Setting, orphans: seq<Orphan>, d: Dependers) {
    forall h, o: nat :: Lists(d, h, o) <==> o < |orphans| && h in Missing(s, orphans[o].tx)
  }

  /** Every transaction that entered the heap entered it once, with all its parents in the block;
      an orphan has entered exactly if it waits for nothing any more. */
  ghost predicate EnteredOk(s: Setting, orphans: seq<Orphan>, entered: seq<Hash>, included: set<Hash>) {
    && NoDuplicates(entered)
    && (forall i :: 0 <= i < |entered| ==> Eligible(s, entered[i]) && Missing(s, entered[i]) <= included)
    && (forall o :: 0 <= o < |orphans| ==> (orphans[o].tx in entered <==> orphans[o].dependsOn == {}))
  }

  /** The heap holds what has entered and has not been taken off. */
  ghost predicate HeapOk(heap: seq<Hash>, entered: seq<Hash>, popped: set<Hash>) {
    NoDuplicates(heap) && forall h :: h in heap <==> h in entered && h !in popped
  }

  function Waiting(orphans: seq<Orphan>): nat {
    if orphans == [] then 0
    else Waiting(orphans[..|orphans| - 1]) + if orphans[|orphans| - 1].dependsOn == {} then 0 else 1
  }

  lemma {:induction false} WaitingUpdate(orphans: seq<Orphan>, o: nat, x: Orphan)
    requires o < |orphans|
    ensures Waiting(orphans[o := x])
            == Waiting(orphans) - (if orphans[o].dependsOn == {} then 0 else 1) + (if x.dependsOn == {} then 0 else 1)
  {
    var last := |orphans| - 1;
    if o == last {
      assert orphans[o := x][..last] == orphans[..last];
    } else {
      WaitingUpdate(orphans[..last], o, x);
      assert orphans[o := x][..last] == orphans[..last][o := x];
    }
  }

  /** The orphans in the middle of releasing: those listed so far no longer wait for `h`. */
  ghost predicate Releasing(s: Setting, before: seq<Orphan>, orphans: seq<Orphan>, h: Hash, seen: seq<nat>) {
    && |orphans| == |before|
    && forall o :: 0 <= o < |orphans| ==>
         orphans[o].tx == before[o].tx && orphans[o].dependsOn == before[o].dependsOn - if o in seen then {h} else {}
  }

  lemma ReleaseNext(s: Setting, before: seq<Orphan>, orphans: seq<Orphan>, h: Hash, seen: seq<nat>, o: nat)
    requires Releasing(s, before, orphans, h, seen) && o < |orphans|
    ensures Releasing(s, before, orphans[o := orphans[o].(dependsOn := orphans[o].dependsOn - {h})], h, seen + [o])
    ensures orphans[o].dependsOn == {} ==> Releasing(s, before, orphans, h, seen + [o])
  {
    forall p | 0 <= p < |orphans| ensures p in seen + [o] <==> p in seen || p == o {
    }
  }

  /** An orphan whose last parent came in enters the heap, for the first time. */
  lemma EnterNext(s: Setting, before: seq<Orphan>, orphans: seq<Orphan>, entered: seq<Hash>, included: set<Hash>,
                  h: Hash, seen: seq<nat>, o: nat)
    requires Releasing(s, before, orphans, h, seen) && OrphansOk(s, before, included)
    requires EnteredOk(s, orphans, entered, included + {h}) && o < |orphans| && orphans[o].dependsOn != {}
    ensures var x := orphans[o].(dependsOn := orphans[o].dependsOn - {h});
            && x.tx !in entered
            && (x.dependsOn == {} ==> EnteredOk(s, orphans[o := x], entered + [x.tx], included + {h}))
            && (x.dependsOn != {} ==> EnteredOk(s, orphans[o := x], entered, included + {h}))
  {
    var x := orphans[o].(dependsOn := orphans[o].dependsOn - {h});
    var orphans' := orphans[o := x];
    assert Waits(s, before[o], included);
    forall p | 0 <= p < |orphans| && p != o ensures orphans'[p].tx != x.tx {
      assert before[p].tx != before[o].tx;
    }
    if x.dependsOn == {} {
      assert Missing(s, x.tx) <= included + {h};
      forall p | 0 <= p < |orphans'| ensures orphans'[p].tx in entered + [x.tx] <==> orphans'[p].dependsOn == {} {
        assert orphans[p].tx in entered <==> orphans[p].dependsOn == {};
      }
    } else {
      forall p | 0 <= p < |orphans'| ensures orphans'[p].tx in entered <==> orphans'[p].dependsOn == {} {
        assert orphans[p].tx in entered <==> orphans[p].dependsOn == {};
      }
    }
  }

  lemma HeapPush(heap: seq<Hash>, entered: seq<Hash>, popped: set<Hash>, h: Hash)
    requires HeapOk(heap, entered, popped) && h !in entered && h !in popped
    ensures HeapOk(heap + [h], entered + [h], popped)
  {
    assert h !in heap;
    forall x ensures x in heap + [h] <==> x in entered + [h] && x !in popped {
      assert x in heap + [h] <==> x in heap || x == h;
    }
  }

  lemma HeapPop(heap: seq<Hash>, entered: seq<Hash>, popped: set<Hash>, i: nat)
    requires HeapOk(heap, entered, popped) && i < |heap|
    ensures heap[i] in entered && heap[i] !in popped
    ensures HeapOk(heap[..i] + heap[i + 1..], entered, popped + {heap[i]})
  {
    var rest, top := heap[..i] + heap[i + 1..], heap[i];
    assert top in heap;
    assert top in entered && top !in popped;
    forall x ensures x in rest <==> x in heap && x != heap[i] {
      if x in heap && x != heap[i] {
        var j :| 0 <= j < |heap| && heap[j] == x;
        assert x == rest[if j < i then j else j - 1];
      }
    }
  }

  /** After the release every orphan waits for what is still missing. */
  lemma Released(s: Setting, before: seq<Orphan>, orphans: seq<Orphan>, d: Dependers, included: set<Hash>, h: Hash)
    requires OrphansOk(s, before, included) && ListedOk(s, before, d) && Releasing(s, before, orphans, h, Deps(d, h))
    ensures OrphansOk(s, orphans, included + {h}) && ListedOk(s, orphans, d)
  {
    forall o | 0 <= o < |orphans| ensures Waits(s, orphans[o], included + {h}) {
      assert Waits(s, before[o], included);
      assert Lists(d, h, o) <==> h in Missing(s, before[o].tx);
    }
    forall o, p | 0 <= o < p < |orphans| ensures orphans[o].tx != orphans[p].tx {
      assert before[o].tx != before[p].tx;
    }
    forall x, o: nat ensures Lists(d, x, o) <==> o < |orphans| && x in Missing(s, orphans[o].tx) {
      assert Lists(d, x, o) <==> o < |before| && x in Missing(s, before[o].tx);
    }
  }

  ghost predicate HasOrphan(orphans: seq<Orphan>, h: Hash) {
    exists o :: 0 <= o < |orphans| && orphans[o].tx == h
  }

  /** Every eligible transaction is an orphan or has entered the heap from the start. */
  ghost predicate NoneForgotten(s: Setting, orphans: seq<Orphan>, entered: seq<Hash>) {
    forall h :: Eligible(s, h) ==> if Missing(s, h) == {} then h in entered else HasOrphan(orphans, h)
  }

  /** What the main loop keeps. */
  ghost predicate QueueOk(s: Setting, orphans: seq<Orphan>, d: Dependers, heap: seq<Hash>, entered: seq<Hash>,
                          popped: set<Hash>, included: set<Hash>) {
    && OrphansOk(s, orphans, included) && ListedOk(s, orphans, d) && HeapOk(heap, entered, popped)
    && EnteredOk(s, orphans, entered, included) && NoneForgotten(s, orphans, entered)
    && Came(popped, entered) && included <= popped
  }

  ghost predicate Came(popped: set<Hash>, entered: seq<Hash>) {
    forall x :: x in popped ==> x in entered
  }

  /** The state in which the main loop starts. */
  lemma QueueStart(s: Setting, orphans: seq<Orphan>, d: Dependers, heap: seq<Hash>)
    requires Collected(s, s.pool.Keys, heap, orphans, d)
    ensures QueueOk(s, orphans, d, heap, heap, {}, {})
  {
    forall o | 0 <= o < |orphans|
      ensures Waits(s, orphans[o], {}) && orphans[o].tx !in heap && orphans[o].dependsOn != {} {
      assert OrphanOk(s, s.pool.Keys, orphans[o]);
      assert forall i :: 0 <= i < |heap| ==> ReadyOk(s, s.pool.Keys, heap[i]);
    }
    forall i | 0 <= i < |heap| ensures Eligible(s, heap[i]) && Missing(s, heap[i]) <= {} {
      assert ReadyOk(s, s.pool.Keys, heap[i]);
    }
    forall h | Eligible(s, h) ensures if Missing(s, h) == {} then h in heap else HasOrphan(orphans, h) {
      StartsSomewhere(s, orphans, d, heap, h);
    }
    ListedStart(s, orphans, d);
  }

  lemma ListedStart(s: Setting, orphans: seq<Orphan>, d: Dependers)
    requires DependersOk(orphans, d) && forall o :: 0 <= o < |orphans| ==> Waits(s, orphans[o], {})
    ensures ListedOk(s, orphans, d)
  {
    forall h, o: nat ensures Lists(d, h, o) <==> o < |orphans| && h in Missing(s, orphans[o].tx) {
      if o < |orphans| {
        assert Waits(s, orphans[o], {});
      }
    }
  }

  lemma StartsSomewhere(s: Setting, orphans: seq<Orphan>, d: Dependers, heap: seq<Hash>, h: Hash)
    requires Collected(s, s.pool.Keys, heap, orphans, d) && Eligible(s, h)
    ensures if Missing(s, h) == {} then h in heap else HasOrphan(orphans, h)
  {
    assert Sorted(heap, orphans, h);
    if h in heap {
      var i :| 0 <= i < |heap| && heap[i] == h;
      assert ReadyOk(s, s.pool.Keys, heap[i]);
    } else {
      var o :| 0 <= o < |orphans| && orphans[o].tx == h;
      assert OrphanOk(s, s.pool.Keys, orphans[o]);
    }
  }

  lemma MoreIncluded(s: Setting, orphans: seq<Orphan>, entered: seq<Hash>, included: set<Hash>, more: set<Hash>)
    requires EnteredOk(s, orphans, entered, included) && included <= more
    ensures EnteredOk(s, orphans, entered, more)
  {
  }

  lemma StillNoneForgotten(s: Setting, before: seq<Orphan>, orphans: seq<Orphan>, entered: seq<Hash>,
                           entered': seq<Hash>)
    requires NoneForgotten(s, before, entered) && entered <= entered' && |orphans| == |before|
    requires forall o :: 0 <= o < |orphans| ==> orphans[o].tx == before[o].tx
    ensures NoneForgotten(s, orphans, entered')
  {
    forall h | Eligible(s, h) ensures if Missing(s, h) == {} then h in entered' else HasOrphan(orphans, h) {
      if Missing(s, h) != {} {
        var o :| 0 <= o < |before| && before[o].tx == h;
        assert orphans[o].tx == h;
      }
    }
  }

  /** Exactly the eligible transactions whose parents in the pool all came into the block entered the
      heap, each once. */
  lemma EnteredExactly(s: Setting, orphans: seq<Orphan>, d: Dependers, heap: seq<Hash>, entered: seq<Hash>,
                       popped: set<Hash>, included: set<Hash>)
    requires QueueOk(s, orphans, d, heap, entered, popped, included)
    ensures NoDuplicates(entered)
    ensures forall h :: h in entered <==> Eligible(s, h) && Missing(s, h) <= included
  {
    forall h ensures h in entered <==> Eligible(s, h) && Missing(s, h) <= included {
      if h in entered {
        var i :| 0 <= i < |entered| && entered[i] == h;
      } else if Eligible(s, h) && Missing(s, h) <= included && Missing(s, h) != {} {
        assert false;
      }
    }
  }
}
