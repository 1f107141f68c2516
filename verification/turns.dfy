/** The turns of CreateNewBlock's main loop (src/miner.cpp): each takes one transaction off the heap, and
    takes it into the block exactly if it fits what is there. */
module Turns {
  import opened Transactions
  import opened TxIndex
  import opened Miner

  /** The transaction taken off, how many were in the block then, and whether the order was by fee. */
  datatype Turn = Turn(tx: Hash, before: nat, byFee: bool)

  /** The tests that come before the inputs are looked at. */
  predicate Screened(s: Setting, size: nat, ops: nat, byFee: bool, h: Hash)
    requires h in s.pool
  {
    var total := size + s.pool[h].size;
    && total < s.maxSize && ops + s.legacyOps(h) < s.maxOps && s.timeOk(h)
    && !(byFee && s.rank(h).fee < s.minFee && total >= s.minSize)
  }

  /** Whether the order is by fee afterwards. */
  predicate Reordered(s: Setting, size: nat, ops: nat, byFee: bool, h: Hash)
    requires h in s.pool
  {
    byFee || (Screened(s, size, ops, byFee, h)
              && (size + s.pool[h].size >= s.prioritySize || s.rank(h).priority < HIGH_PRIORITY))
  }

  /** The transaction passes all tests on top of the block. */
  ghost predicate Fits(s: Setting, block: seq<Tx>, byFee: bool, h: Hash) {
    && h in s.pool
    && Screened(s, SizeTo(block, |block|), OpsTo(s, block, |block|), byFee, h)
    && OpsTo(s, block, |block|) + s.legacyOps(h) + s.scriptOps(h) < s.maxOps
    && TxOk(After(s, block, |block|), Src(s), s.pool[h], s.checks)
  }

  /** The order after a turn over the block. */
  predicate NextOrder(s: Setting, block: seq<Tx>, byFee: bool, h: Hash) {
    byFee || (h in s.pool && Reordered(s, SizeTo(block, |block|), OpsTo(s, block, |block|), byFee, h))
  }

  /** The order in which turn `i` takes its transaction. */
  predicate OrderAt(s: Setting, block: seq<Tx>, turns: seq<Turn>, i: nat)
    requires i <= |turns|
  {
    if i == 0 then s.prioritySize <= 0
    else
      var t := turns[i - 1];
      t.before <= |block| && NextOrder(s, block[..t.before], t.byFee, t.tx)
  }

  ghost predicate TurnOk(s: Setting, block: seq<Tx>, t: Turn) {
    && t.before <= |block|
    && if Fits(s, block[..t.before], t.byFee, t.tx) then t.before < |block| && block[t.before].id == t.tx
       else t.tx !in IdsTo(block, |block|)
  }

  /** A transaction that can be taken off: its parents in the pool are in the block, and no turn took it yet. */
  ghost predicate Ready(s: Setting, included: set<Hash>, taken: set<Hash>, h: Hash) {
    Eligible(s, h) && Missing(s, h) <= included && h !in taken
  }

  /** Nothing that can be taken off comes before `h`. */
  ghost predicate Foremost(s: Setting, included: set<Hash>, taken: set<Hash>, byFee: bool, h: Hash) {
    && Ready(s, included, taken, h)
    && forall x :: Ready(s, included, taken, x) ==> !Less(byFee, s.rank(h), s.rank(x))
  }

  ghost predicate TakesForemost(s: Setting, block: seq<Tx>, turns: seq<Turn>, i: nat)
    requires i < |turns|
  {
    var t := turns[i];
    t.before <= |block| && Foremost(s, IdsTo(block, t.before), TakenOff(turns[..i]), t.byFee, t.tx)
  }

  /** Every turn takes off the foremost transaction that can be taken off. It came into the block at its turn if it
      fitted, and not at all otherwise. */
  ghost predicate TurnsOk(s: Setting, block: seq<Tx>, turns: seq<Turn>) {
    && (forall i :: 0 <= i < |turns| ==> TurnOk(s, block, turns[i]))
    && (forall i :: 0 <= i < |turns| ==> InOrder(s, block, turns, i))
    && (forall i :: 0 <= i < |turns| ==> TakesForemost(s, block, turns, i))
    && OneByOne(turns)
  }

  ghost predicate InOrder(s: Setting, block: seq<Tx>, turns: seq<Turn>, i: nat)
    requires i < |turns|
  {
    turns[i].byFee == OrderAt(s, block, turns, i)
  }

  ghost predicate OneByOne(turns: seq<Turn>) {
    forall i, j :: 0 <= i < j < |turns| ==> turns[i].tx != turns[j].tx && turns[i].before <= turns[j].before
  }

  function TakenOff(turns: seq<Turn>): set<Hash> {
    set i | 0 <= i < |turns| :: turns[i].tx
  }

  lemma TakenOffNext(turns: seq<Turn>, t: Turn)
    ensures TakenOff(turns + [t]) == TakenOff(turns) + {t.tx}
  {
    var all := turns + [t];
    assert all[|turns|] == t;
    forall h | h in TakenOff(turns) ensures h in TakenOff(all) {
      var i :| 0 <= i < |turns| && turns[i].tx == h;
      assert all[i].tx == h;
    }
  }

  /** A turn whose transaction did not fit. */
  lemma TurnMissed(s: Setting, block: seq<Tx>, turns: seq<Turn>, byFee: bool, h: Hash)
    requires TurnsOk(s, block, turns) && h !in TakenOff(turns) && h !in IdsTo(block, |block|)
    requires byFee == OrderAt(s, block, turns, |turns|) && !Fits(s, block, byFee, h)
    requires Foremost(s, IdsTo(block, |block|), TakenOff(turns), byFee, h)
    ensures var turns' := turns + [Turn(h, |block|, byFee)];
            && TurnsOk(s, block, turns') && TakenOff(turns') == TakenOff(turns) + {h}
            && OrderAt(s, block, turns', |turns'|) == NextOrder(s, block, byFee, h)
  {
    var t := Turn(h, |block|, byFee);
    TakenOffNext(turns, t);
    assert block[..|block|] == block;
    TurnsAppend(s, block, turns, t);
  }

  lemma TurnsAppend(s: Setting, block: seq<Tx>, turns: seq<Turn>, t: Turn)
    requires TurnsOk(s, block, turns) && t.tx !in TakenOff(turns) && TurnOk(s, block, t)
    requires t.byFee == OrderAt(s, block, turns, |turns|)
    requires t.before <= |block| && Foremost(s, IdsTo(block, t.before), TakenOff(turns), t.byFee, t.tx)
    requires forall i :: 0 <= i < |turns| ==> turns[i].before <= t.before
    ensures TurnsOk(s, block, turns + [t])
  {
    var turns' := turns + [t];
    forall i | 0 <= i < |turns'| ensures TurnOk(s, block, turns'[i]) && InOrder(s, block, turns', i) {
      OrderPrefix(s, block, turns, t, i);
      assert i < |turns| ==> TurnOk(s, block, turns[i]) && InOrder(s, block, turns, i);
    }
    forall i | 0 <= i < |turns'| ensures TakesForemost(s, block, turns', i) {
      assert turns'[..i] == if i < |turns| then turns[..i] else turns;
      assert i < |turns| ==> TakesForemost(s, block, turns, i);
    }
    OneByOneAppend(turns, t);
  }

  lemma OneByOneAppend(turns: seq<Turn>, t: Turn)
    requires OneByOne(turns) && t.tx !in TakenOff(turns)
    requires forall i :: 0 <= i < |turns| ==> turns[i].before <= t.before
    ensures OneByOne(turns + [t])
  {
    forall i | 0 <= i < |turns| ensures turns[i].tx != t.tx {
      assert turns[i].tx in TakenOff(turns);
    }
  }

  lemma OrderPrefix(s: Setting, block: seq<Tx>, turns: seq<Turn>, t: Turn, i: nat)
    requires i <= |turns|
    ensures OrderAt(s, block, turns + [t], i) == OrderAt(s, block, turns, i)
  {
  }

  /** A turn whose transaction came in. */
  lemma TurnHit(s: Setting, block: seq<Tx>, turns: seq<Turn>, byFee: bool, tx: Tx)
    requires TurnsOk(s, block, turns) && tx.id !in TakenOff(turns) && tx.id in s.pool
    requires byFee == OrderAt(s, block, turns, |turns|) && Fits(s, block, byFee, tx.id)
    requires Foremost(s, IdsTo(block, |block|), TakenOff(turns), byFee, tx.id)
    ensures var block', turns' := block + [tx], turns + [Turn(tx.id, |block|, byFee)];
            && TurnsOk(s, block', turns') && TakenOff(turns') == TakenOff(turns) + {tx.id}
            && OrderAt(s, block', turns', |turns'|) == NextOrder(s, block, byFee, tx.id)
  {
    var block', t := block + [tx], Turn(tx.id, |block|, byFee);
    TakenOffNext(turns, t);
    assert block'[..|block|] == block;
    SameStart(s, block, tx, |block|);
    TurnsGrow(s, block, turns, tx);
    forall i | 0 <= i < |turns| ensures turns[i].before <= |block| {
      assert TurnOk(s, block, turns[i]);
    }
    TurnsAppend(s, block', turns, t);
  }

  /** Earlier turns are as they were when the block grows. */
  lemma TurnsGrow(s: Setting, block: seq<Tx>, turns: seq<Turn>, tx: Tx)
    requires TurnsOk(s, block, turns) && tx.id !in TakenOff(turns)
    ensures TurnsOk(s, block + [tx], turns)
    ensures OrderAt(s, block + [tx], turns, |turns|) == OrderAt(s, block, turns, |turns|)
  {
    var block' := block + [tx];
    GrowTotals(s, block, tx);
    forall i | 0 <= i < |turns| ensures TurnOk(s, block', turns[i]) && turns[i].tx != tx.id {
      assert TurnOk(s, block, turns[i]) && turns[i].tx in TakenOff(turns);
      assert block'[..turns[i].before] == block[..turns[i].before];
    }
    forall i | 0 <= i < |turns| ensures TakesForemost(s, block', turns, i) {
      assert TakesForemost(s, block, turns, i);
      SameStart(s, block, tx, turns[i].before);
    }
    forall i | 0 <= i <= |turns|
      ensures OrderAt(s, block', turns, i) == OrderAt(s, block, turns, i)
      ensures i < |turns| ==> InOrder(s, block', turns, i) {
      assert i < |turns| ==> InOrder(s, block, turns, i);
      if i > 0 {
        assert TurnOk(s, block, turns[i - 1]);
        assert block'[..turns[i - 1].before] == block[..turns[i - 1].before];
      }
    }
  }

  // ---------------------------------------------------------------- what a turn takes

  lemma {:induction false} MissingIs(s: Setting, vin: seq<OutPoint>, k: nat, included: set<Hash>)
    requires k <= |vin|
    ensures MissingTo(s, vin, k) <= included
            <==> forall i :: 0 <= i < k ==> OnChain(s, vin[i]) || vin[i].hash in included
  {
    if k > 0 {
      MissingIs(s, vin, k - 1, included);
      assert OnChain(s, vin[k - 1]) || vin[k - 1].hash in MissingTo(s, vin, k);
    }
  }

  /** The input can be read through the index, or is an output of one of the first `n` transactions of the block. */
  ghost predicate Available(s: Setting, block: seq<Tx>, n: nat, o: OutPoint) {
    || (o.hash in s.chain && s.chain[o.hash].pos in s.disk && o.n < |s.disk[s.chain[o.hash].pos].vout|)
    || exists m :: 0 <= m < n && m < |block| && block[m].id == o.hash
  }

  /** A transaction is ready at a turn exactly if it is final, neither coinbase nor coinstake, was not taken off
      before, and each of its inputs is available. */
  lemma ReadyExactly(s: Setting, block: seq<Tx>, n: nat, taken: set<Hash>, h: Hash)
    requires n <= |block| && h in s.pool
    ensures Ready(s, IdsTo(block, n), taken, h)
      <==> && !s.pool[h].IsCoinBase() && !s.pool[h].IsCoinStake() && s.isFinal(h) && h !in taken
           && forall i :: 0 <= i < |s.pool[h].vin| ==> Available(s, block, n, s.pool[h].vin[i])
  {
    var vin := s.pool[h].vin;
    MissingIs(s, vin, |vin|, IdsTo(block, n));
    forall i | 0 <= i < |vin|
      ensures OnChain(s, vin[i]) || vin[i].hash in IdsTo(block, n) <==> Available(s, block, n, vin[i])
    {
      IdsAre(block, n, vin[i].hash);
    }
  }

  /** In the order by fee a turn takes a transaction with the highest fee of those that could be taken, and among
      these one with the highest priority; in the order by priority the other way round. */
  lemma TakesBest(s: Setting, block: seq<Tx>, turns: seq<Turn>, i: nat, h: Hash)
    requires TurnsOk(s, block, turns) && i < |turns| && h in s.pool
    requires !s.pool[h].IsCoinBase() && !s.pool[h].IsCoinStake() && s.isFinal(h)
    requires forall j :: 0 <= j < i ==> turns[j].tx != h
    requires forall k :: 0 <= k < |s.pool[h].vin| ==> Available(s, block, turns[i].before, s.pool[h].vin[k])
    ensures turns[i].byFee ==>
              && s.rank(h).fee <= s.rank(turns[i].tx).fee
              && (s.rank(h).fee == s.rank(turns[i].tx).fee ==> s.rank(h).priority <= s.rank(turns[i].tx).priority)
    ensures !turns[i].byFee ==>
              && s.rank(h).priority <= s.rank(turns[i].tx).priority
              && (s.rank(h).priority == s.rank(turns[i].tx).priority ==> s.rank(h).fee <= s.rank(turns[i].tx).fee)
  {
    assert TakesForemost(s, block, turns, i);
    ReadyExactly(s, block, turns[i].before, TakenOff(turns[..i]), h);
  }

  /** The turn after which the order is by fee: its transaction passed the first tests, and reached the size kept
      for high priorities or has a low one itself. */
  ghost predicate EndsPriorities(s: Setting, block: seq<Tx>, t: Turn) {
    && t.before <= |block| && t.tx in s.pool
    && Screened(s, SizeTo(block, t.before), OpsTo(s, block, t.before), t.byFee, t.tx)
    && (SizeTo(block, t.before) + s.pool[t.tx].size >= s.prioritySize || s.rank(t.tx).priority < 57600000.0)
  }

  /** A turn is by fee exactly if nothing is kept for high priorities or an earlier turn ended them. */
  lemma {:induction false} ByFeeExactly(s: Setting, block: seq<Tx>, turns: seq<Turn>, i: nat)
    requires TurnsOk(s, block, turns) && i < |turns|
    ensures turns[i].byFee <==> s.prioritySize <= 0 || exists j :: 0 <= j < i && EndsPriorities(s, block, turns[j])
  {
    assert InOrder(s, block, turns, i);
    if i > 0 {
      ByFeeExactly(s, block, turns, i - 1);
      assert TurnOk(s, block, turns[i - 1]);
      PrefixTotals(s, block, turns[i - 1].before, turns[i - 1].before);
    }
  }

  lemma {:induction false} PrefixTotals(s: Setting, block: seq<Tx>, n: nat, k: nat)
    requires k <= n <= |block|
    ensures SizeTo(block[..n], k) == SizeTo(block, k) && OpsTo(s, block[..n], k) == OpsTo(s, block, k)
    ensures After(s, block[..n], k) == After(s, block, k)
  {
    if k > 0 {
      PrefixTotals(s, block, n, k - 1);
    }
  }

  /** A transaction taken off comes into the block, next, exactly if it is smaller than the room left, keeps the
      signature operations below their limit, is not dated ahead, pays enough once the order is by fee and the block
      has its least size, and connects to the index with the block so far. */
  lemma ComesInExactly(s: Setting, block: seq<Tx>, turns: seq<Turn>, i: nat)
    requires TurnsOk(s, block, turns) && i < |turns|
    ensures turns[i].tx in s.pool && turns[i].before <= |block|
    ensures var t, n := turns[i], turns[i].before;
            var size, ops := SizeTo(block, n) + s.pool[t.tx].size, OpsTo(s, block, n);
            var comes := && size < s.maxSize && ops + s.legacyOps(t.tx) + s.scriptOps(t.tx) < s.maxOps && s.timeOk(t.tx)
                         && !(t.byFee && s.rank(t.tx).fee < s.minFee && size >= s.minSize)
                         && TxOk(After(s, block, n), Src(s), s.pool[t.tx], s.checks);
            && (comes ==> n < |block| && block[n].id == t.tx)
            && (!comes ==> forall j :: 0 <= j < |block| ==> block[j].id != t.tx)
  {
    var t := turns[i];
    assert TurnOk(s, block, t) && TakesForemost(s, block, turns, i);
    PrefixTotals(s, block, t.before, t.before);
    if forall j :: 0 <= j < |block| ==> block[j].id != t.tx {
    } else {
      IdsAre(block, |block|, t.tx);
    }
  }
}
