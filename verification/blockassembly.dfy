/** The methods of block assembly (CreateNewBlock in src/miner.cpp), over the definitions of Miner. */
module BlockAssembly {
  import opened Transactions
  import opened TxIndex
  import opened Miner
  import opened Turns
  import opened Ordering

  // ---------------------------------------------------------------- trying one transaction

  /** The tests that come before the inputs are looked at, and the switch to ordering by fee. */
  method Screen(s: Setting, d: Draft, h: Hash) returns (ok: bool, byFee: bool)
    requires h in s.pool
    ensures ok <==> Screened(s, d.size, d.ops, d.byFee, h)
    ensures byFee == Reordered(s, d.size, d.ops, d.byFee, h)
  {
    byFee := d.byFee;
    var total := d.size + s.pool[h].size;
    if total >= s.maxSize { return false, byFee; }
    if d.ops + s.legacyOps(h) >= s.maxOps { return false, byFee; }
    if !s.timeOk(h) { return false, byFee; }
    if byFee && s.rank(h).fee < s.minFee && total >= s.minSize { return false, byFee; }
    if !byFee && (total >= s.prioritySize || s.rank(h).priority < HIGH_PRIORITY) {
      byFee := true;
    }
    ok := true;
  }

  /** Fetching and connecting against a copy of mapTestPool, which replaces it on success. */
  method TryConnect(db: TxDb, s: Setting, d: Draft, h: Hash, ghost v: TxMap) returns (ok: bool, test: TxMap, fee: int)
    requires PoolOk(s) && h in s.pool && !s.pool[h].IsCoinBase() && db.View() == s.chain && v == s.chain + d.test
    ensures ok <==> TxOk(v, Src(s), s.pool[h], s.checks) && d.ops + s.legacyOps(h) + s.scriptOps(h) < s.maxOps
    ensures ok ==> s.chain + test == ConnectTx(v, s.pool[h], MEMPOOL_POS)
    ensures ok ==> fee == ValueIn(v, Src(s), s.pool[h]) - ValueOut(s.pool[h].vout)
  {
    var tx := s.pool[h];
    fee := 0;
    var inputs := FetchInputs(db, d.test, Src(s), tx);
    if inputs.None? { return false, d.test, 0; }
    FoundIs(s.chain + d.test, Src(s), tx, inputs.value, |tx.vin|);
    var found := GetValueMapIn(tx, inputs.value);
    var valueIn := found.value;
    var valueOut := GetValueOut(tx);
    fee := valueIn - valueOut.value;
    if d.ops + s.legacyOps(h) + s.scriptOps(h) >= s.maxOps { return false, d.test, fee; }
    ok, test := ConnectInputs(tx, inputs.value, d.test, MEMPOOL_POS, s.checks, s.chain, Src(s));
    MergeUpdate(s.chain, test, tx.id, FreshEntry(MEMPOOL_POS, |tx.vout|));
    test := test[tx.id := FreshEntry(MEMPOOL_POS, |tx.vout|)];
  }

  /** The rest of a turn, for a transaction that passed those tests. */
  method Extend(db: TxDb, s: Setting, d: Draft, h: Hash) returns (added: bool, r: Draft)
    requires PoolOk(s) && Eligible(s, h) && db.View() == s.chain && DraftOk(s, d) && TestOk(s, d)
    requires h !in IdsTo(d.block, |d.block|) && d.size + s.pool[h].size < s.maxSize
    ensures added <==> d.ops + s.legacyOps(h) + s.scriptOps(h) < s.maxOps
                       && TxOk(After(s, d.block, |d.block|), Src(s), s.pool[h], s.checks)
    ensures added ==> DraftOk(s, r) && TestOk(s, r) && r.byFee == d.byFee
    ensures added ==> r.block == d.block + [s.pool[h]] && IdsTo(r.block, |r.block|) == IdsTo(d.block, |d.block|) + {h}
    ensures !added ==> r == d
  {
    ghost var v := After(s, d.block, |d.block|);
    var ok, test, fee := TryConnect(db, s, d, h, v);
    if !ok { return false, d; }
    added, r := true, Grown(s, d, s.pool[h], test, fee);
    Keep(s, d, h, v, test, fee, r);
  }

  /** One turn of the main loop for the transaction taken off the heap. */
  method Consider(db: TxDb, s: Setting, d: Draft, h: Hash) returns (added: bool, r: Draft)
    requires PoolOk(s) && Eligible(s, h) && db.View() == s.chain && DraftOk(s, d) && TestOk(s, d)
    requires h !in IdsTo(d.block, |d.block|)
    ensures DraftOk(s, r) && TestOk(s, r) && r.byFee == NextOrder(s, d.block, d.byFee, h)
    ensures added <==> Fits(s, d.block, d.byFee, h)
    ensures added ==> r.block == d.block + [s.pool[h]] && IdsTo(r.block, |r.block|) == IdsTo(d.block, |d.block|) + {h}
    ensures !added ==> r.block == d.block
  {
    var fine, byFee := Screen(s, d, h);
    r := d.(byFee := byFee);
    ReorderOk(s, d, byFee);
    if !fine { return false, r; }
    added, r := Extend(db, s, r, h);
  }

  lemma Keep(s: Setting, d: Draft, h: Hash, v: TxMap, test: TxMap, fee: int, r: Draft)
    requires PoolOk(s) && Eligible(s, h) && DraftOk(s, d) && h !in IdsTo(d.block, |d.block|)
    requires v == After(s, d.block, |d.block|) && TxOk(v, Src(s), s.pool[h], s.checks)
    requires s.chain + test == ConnectTx(v, s.pool[h], MEMPOOL_POS)
    requires fee == ValueIn(v, Src(s), s.pool[h]) - ValueOut(s.pool[h].vout)
    requires d.size + s.pool[h].size < s.maxSize && d.ops + s.legacyOps(h) + s.scriptOps(h) < s.maxOps
    requires r == Grown(s, d, s.pool[h], test, fee)
    ensures DraftOk(s, r)
    ensures TestOk(s, r)
    ensures r.block == d.block + [s.pool[h]] && IdsTo(r.block, |r.block|) == IdsTo(d.block, |d.block|) + {h}
  {
    GrowOk(s, d, s.pool[h], v, test, fee);
    GrowTest(s, d, s.pool[h], v, test, fee);
  }

  // ---------------------------------------------------------------- the queue

  /** The heap gives the transaction that comes first in the current order. */
  method Best(s: Setting, heap: seq<Hash>, byFee: bool) returns (i: nat)
    requires heap != []
    ensures i < |heap| && forall j :: 0 <= j < |heap| ==> !Less(byFee, s.rank(heap[i]), s.rank(heap[j]))
  {
    i := 0;
    var j := 1;
    while j < |heap|
      invariant i < |heap| && 1 <= j <= |heap|
      invariant forall k :: 0 <= k < j ==> !Less(byFee, s.rank(heap[i]), s.rank(heap[k]))
    {
      if Less(byFee, s.rank(heap[i]), s.rank(heap[j])) {
        i := j;
      }
      j := j + 1;
    }
  }

  /** One depender no longer waits for `h`. It enters the heap when that was the last it waited for. */
  method ReleaseOne(s: Setting, ghost before: seq<Orphan>, orphans0: seq<Orphan>, h: Hash, heap0: seq<Hash>,
                    ghost entered0: seq<Hash>, ghost popped: set<Hash>, ghost included: set<Hash>,
                    ghost seen: seq<nat>, o: nat)
    returns (orphans: seq<Orphan>, heap: seq<Hash>, ghost entered: seq<Hash>)
    requires Releasing(s, before, orphans0, h, seen) && OrphansOk(s, before, included)
      && HeapOk(heap0, entered0, popped)
    requires EnteredOk(s, orphans0, entered0, included + {h}) && Came(popped, entered0)
    requires o < |orphans0|
    ensures Releasing(s, before, orphans, h, seen + [o])
    ensures HeapOk(heap, entered, popped) && EnteredOk(s, orphans, entered, included + {h}) && entered0 <= entered
    ensures |heap| + Waiting(orphans) == |heap0| + Waiting(orphans0) && Came(popped, entered)
  {
    orphans, heap, entered := orphans0, heap0, entered0;
    ReleaseNext(s, before, orphans0, h, seen, o);
    if orphans0[o].dependsOn != {} {
      EnterNext(s, before, orphans0, entered0, included, h, seen, o);
      var x := orphans0[o].(dependsOn := orphans0[o].dependsOn - {h});
      WaitingUpdate(orphans0, o, x);
      orphans := orphans0[o := x];
      if x.dependsOn == {} {
        HeapPush(heap, entered, popped, x.tx);
        heap, entered := heap + [x.tx], entered + [x.tx];
      }
    }
  }

  /** The loop that releases the dependers of a transaction that came into the block. */
  method Release(s: Setting, before: seq<Orphan>, d: Dependers, h: Hash, heap0: seq<Hash>, ghost entered0: seq<Hash>,
                 ghost popped: set<Hash>, ghost included: set<Hash>)
    returns (orphans: seq<Orphan>, heap: seq<Hash>, ghost entered: seq<Hash>)
    requires OrphansOk(s, before, included) && ListedOk(s, before, d) && HeapOk(heap0, entered0, popped)
    requires EnteredOk(s, before, entered0, included + {h}) && Came(popped, entered0)
    ensures OrphansOk(s, orphans, included + {h}) && ListedOk(s, orphans, d) && HeapOk(heap, entered, popped)
    ensures EnteredOk(s, orphans, entered, included + {h}) && entered0 <= entered && Came(popped, entered)
    ensures |heap| + Waiting(orphans) == |heap0| + Waiting(before)
    ensures Releasing(s, before, orphans, h, Deps(d, h))
  {
    orphans, heap, entered := before, heap0, entered0;
    var list := Deps(d, h);
    var k := 0;
    ReleaseStart(s, before, h);
    assert list[..0] == [];
    while k < |list|
      invariant k <= |list| && Releasing(s, before, orphans, h, list[..k]) && HeapOk(heap, entered, popped)
      invariant EnteredOk(s, orphans, entered, included + {h}) && entered0 <= entered
      invariant Came(popped, entered)
      invariant |heap| + Waiting(orphans) == |heap0| + Waiting(before)
    {
      var o := list[k];
      ListedInRange(s, before, orphans, d, h, k);
      orphans, heap, entered := ReleaseOne(s, before, orphans, h, heap, entered, popped, included, list[..k], o);
      assert list[..k + 1] == list[..k] + [o];
      k := k + 1;
    }
    assert list[..k] == list;
    Released(s, before, orphans, d, included, h);
  }

  lemma ReleaseStart(s: Setting, before: seq<Orphan>, h: Hash)
    ensures Releasing(s, before, before, h, [])
  {
  }

  lemma ListedInRange(s: Setting, before: seq<Orphan>, orphans: seq<Orphan>, d: Dependers, h: Hash, k: nat)
    requires ListedOk(s, before, d) && k < |Deps(d, h)| && |orphans| == |before|
    ensures Deps(d, h)[k] < |orphans|
  {
    assert Lists(d, h, Deps(d, h)[k]);
  }

  // ---------------------------------------------------------------- the main loop

  /** What follows when a transaction has come into the block. */
  method Continue(s: Setting, before: seq<Orphan>, d: Dependers, h: Hash, heap0: seq<Hash>, ghost entered0: seq<Hash>,
                  ghost popped: set<Hash>, ghost included: set<Hash>)
    returns (orphans: seq<Orphan>, heap: seq<Hash>, ghost entered: seq<Hash>)
    requires QueueOk(s, before, d, heap0, entered0, popped, included) && h in popped
    ensures QueueOk(s, orphans, d, heap, entered, popped, included + {h})
    ensures |heap| + Waiting(orphans) == |heap0| + Waiting(before)
  {
    MoreIncluded(s, before, entered0, included, included + {h});
    orphans, heap, entered := Release(s, before, d, h, heap0, entered0, popped, included);
    StillNoneForgotten(s, before, orphans, entered0, entered);
  }

  /** The collection loops of CreateNewBlock. The loop ends, every transaction enters the heap at most
      once, and enters it exactly if all its parents in the pool came into the block. Each is taken off
      in one turn, and then comes into the block exactly if it fits. */
  method CollectTransactions(db: TxDb, s: Setting)
    returns (draft: Draft, ghost entered: seq<Hash>, ghost turns: seq<Turn>)
    requires PoolOk(s) && db.View() == s.chain
    ensures DraftOk(s, draft) && NoDuplicates(entered)
    ensures forall h :: h in entered <==> Eligible(s, h) && Missing(s, h) <= IdsTo(draft.block, |draft.block|)
    ensures IdsTo(draft.block, |draft.block|) <= Members(entered)
    ensures TurnsOk(s, draft.block, turns) && TakenOff(turns) == Members(entered)
  {
    var heap, orphans, d := Collect(s);
    QueueStart(s, orphans, d, heap);
    draft := Draft([], map[], BASE_SIZE, BASE_OPS, 0, s.prioritySize <= 0);
    DraftStart(s, draft);
    entered := heap;
    ghost var popped, included := {}, {};
    turns := [];
    while heap != []
      invariant QueueOk(s, orphans, d, heap, entered, popped, included) && included == IdsTo(draft.block, |draft.block|)
      invariant DraftOk(s, draft) && TestOk(s, draft)
      invariant TurnsOk(s, draft.block, turns) && TakenOff(turns) == popped
      invariant draft.byFee == OrderAt(s, draft.block, turns, |turns|)
      decreases |heap| + Waiting(orphans)
    {
      var i := Best(s, heap, draft.byFee);
      var h := heap[i];
      BestIsForemost(s, orphans, d, heap, entered, popped, included, i, draft.byFee);
      PopKeeps(s, orphans, d, heap, entered, popped, included, i);
      heap := heap[..i] + heap[i + 1..];
      popped := popped + {h};
      ghost var block, byFee := draft.block, draft.byFee;
      var added;
      added, draft := Consider(db, s, draft, h);
      turns := OneTurn(s, block, turns, byFee, h, added, draft.block);
      if added {
        orphans, heap, entered := Continue(s, orphans, d, h, heap, entered, popped, included);
        included := included + {h};
      }
    }
    EnteredExactly(s, orphans, d, heap, entered, popped, included);
    IncludedCame(included, popped, entered);
    AllTakenOff(heap, entered, popped);
  }

  /** The record of a turn. */
  lemma OneTurn(s: Setting, block: seq<Tx>, turns: seq<Turn>, byFee: bool, h: Hash, added: bool, block': seq<Tx>)
    returns (r: seq<Turn>)
    requires PoolOk(s) && h in s.pool && TurnsOk(s, block, turns) && h !in TakenOff(turns)
    requires h !in IdsTo(block, |block|) && byFee == OrderAt(s, block, turns, |turns|)
    requires Foremost(s, IdsTo(block, |block|), TakenOff(turns), byFee, h)
    requires (added <==> Fits(s, block, byFee, h)) && block' == if added then block + [s.pool[h]] else block
    ensures TurnsOk(s, block', r) && TakenOff(r) == TakenOff(turns) + {h}
    ensures OrderAt(s, block', r, |r|) == NextOrder(s, block, byFee, h)
  {
    r := turns + [Turn(h, |block|, byFee)];
    if added {
      TurnHit(s, block, turns, byFee, s.pool[h]);
    } else {
      TurnMissed(s, block, turns, byFee, h);
    }
  }

  /** The heap holds everything that can be taken off, so its first is the foremost. */
  lemma BestIsForemost(s: Setting, orphans: seq<Orphan>, d: Dependers, heap: seq<Hash>, entered: seq<Hash>,
                       popped: set<Hash>, included: set<Hash>, i: nat, byFee: bool)
    requires QueueOk(s, orphans, d, heap, entered, popped, included) && i < |heap|
    requires forall j :: 0 <= j < |heap| ==> !Less(byFee, s.rank(heap[i]), s.rank(heap[j]))
    ensures Foremost(s, included, popped, byFee, heap[i])
  {
    EnteredExactly(s, orphans, d, heap, entered, popped, included);
    assert heap[i] in heap;
    forall x | Ready(s, included, popped, x) ensures !Less(byFee, s.rank(heap[i]), s.rank(x)) {
      assert x in heap;
    }
  }

  lemma AllTakenOff(heap: seq<Hash>, entered: seq<Hash>, popped: set<Hash>)
    requires HeapOk(heap, entered, popped) && Came(popped, entered) && heap == []
    ensures popped == Members(entered)
  {
    forall h ensures h in popped <==> h in Members(entered) {
      assert h in heap <==> h in entered && h !in popped;
      assert h in popped ==> h in entered;
    }
  }

  lemma DraftStart(s: Setting, d: Draft)
    requires d == Draft([], map[], BASE_SIZE, BASE_OPS, 0, d.byFee)
    ensures DraftOk(s, d) && TestOk(s, d)
  {
    assert s.chain + map[] == s.chain;
  }

  lemma PopKeeps(s: Setting, orphans: seq<Orphan>, d: Dependers, heap: seq<Hash>, entered: seq<Hash>,
                 popped: set<Hash>, included: set<Hash>, i: nat)
    requires QueueOk(s, orphans, d, heap, entered, popped, included) && i < |heap|
    ensures QueueOk(s, orphans, d, heap[..i] + heap[i + 1..], entered, popped + {heap[i]}, included)
    ensures Eligible(s, heap[i]) && heap[i] !in included && heap[i] !in popped
  {
    HeapPop(heap, entered, popped, i);
    var h := heap[i];
    var j :| 0 <= j < |entered| && entered[j] == h;
    assert Eligible(s, entered[j]);
  }

  lemma IncludedCame(included: set<Hash>, popped: set<Hash>, entered: seq<Hash>)
    requires included <= popped && Came(popped, entered)
    ensures included <= Members(entered)
  {
    forall x | x in included ensures x in Members(entered) {
      assert x in popped;
    }
  }
}
