/** Block locators (CBlockLocator in src/main.h): few entries, all on the sender's chain, and close
    enough to find the fork with any other chain. */
module Locator {
  import opened Transactions
  import opened Powers
  import opened BlockTree
  import opened Links

  /** How far below the tip an entry lies: single steps at first, then doubling ones. */
  function Offset(i: nat): nat {
    if i <= 11 then i else 9 + Power2(i - 10)
  }

  lemma OffsetNext(i: nat)
    ensures Offset(i) < Offset(i + 1)
    ensures i < 11 ==> Offset(i + 1) == Offset(i) + 1
    ensures i >= 11 ==> Offset(i + 1) == 2 * Offset(i) - 9 && Offset(i + 1) == Offset(i) + Power2(i - 10)
  {
    if i == 11 {
      assert Power2(2) == 2 * Power2(1) && Power2(1) == 2 * Power2(0);
    }
  }

  /** The entries that Set makes from a block, without the genesis block at the end. */
  ghost predicate Covers(t: Tree, tip: Hash, have: seq<Hash>)
    requires WellFormed(t) && tip in t
  {
    && have != [] && Offset(|have| - 1) <= t[tip].height < Offset(|have|)
    && EntriesAt(t, tip, have)
  }

  ghost predicate EntriesAt(t: Tree, tip: Hash, have: seq<Hash>)
    requires WellFormed(t) && tip in t
  {
    forall i :: 0 <= i < |have| ==> EntryAt(t, tip, have[i], i)
  }

  lemma OneMoreEntry(t: Tree, tip: Hash, have: seq<Hash>, x: Hash)
    requires WellFormed(t) && tip in t && EntriesAt(t, tip, have) && EntryAt(t, tip, x, |have|)
    ensures EntriesAt(t, tip, have + [x])
  {
  }

  ghost predicate EntryAt(t: Tree, tip: Hash, x: Hash, i: nat)
    requires WellFormed(t) && tip in t
  {
    Offset(i) <= t[tip].height && x == Path(t, tip)[t[tip].height - Offset(i)]
  }

  /** Walking back from a block on the path. */
  method WalkBack(t: Tree, tip: Hash, x: Hash, steps: nat) returns (r: Option<Hash>)
    requires WellFormed(t) && tip in t && IsAncestor(t, x, tip)
    ensures x in t && t[x].height <= t[tip].height
    ensures steps <= t[x].height ==> r == Some(Path(t, tip)[t[x].height - steps])
    ensures steps > t[x].height ==> r == None
  {
    AncestorPath(t, x, tip);
    r := Some(x);
    var i := 0;
    while r.Some? && i < steps
      invariant i <= steps
      invariant r.Some? ==> i <= t[x].height && r.value in t && r.value == Path(t, tip)[t[x].height - i]
      invariant r.None? ==> steps > t[x].height
      decreases steps - i, r.Some?
    {
      if i < t[x].height {
        ParentOnPath(t, tip, t[x].height - i);
      }
      assert t[r.value].height == t[x].height - i;
      r := t[r.value].pprev;
      i := i + 1;
    }
  }

  /** One round of the loop of Set. */
  method NextEntry(t: Tree, tip: Hash, x: Hash, n: nat, step: nat) returns (r: Option<Hash>)
    requires WellFormed(t) && tip in t && EntryAt(t, tip, x, n) && step == Offset(n + 1) - Offset(n)
    ensures r.Some? ==> EntryAt(t, tip, r.value, n + 1)
    ensures r.None? ==> t[tip].height < Offset(n + 1)
  {
    assert x in Path(t, tip);
    r := WalkBack(t, tip, x, step);
  }

  /** The loop of Set. */
  method Entries(t: Tree, tip: Hash) returns (have: seq<Hash>)
    requires WellFormed(t) && tip in t
    ensures Covers(t, tip, have)
  {
    have := [];
    var step, cur := 1, Some(tip);
    while cur.Some?
      invariant cur.Some? ==> EntryAt(t, tip, cur.value, |have|)
      invariant cur.None? ==> have != [] && t[tip].height < Offset(|have|)
      invariant EntriesAt(t, tip, have)
      invariant step == StepAt(|have|)
      decreases cur.Some?, t[tip].height - Offset(|have|)
    {
      StepSize(|have|);
      OffsetNext(|have|);
      var x := cur.value;
      OneMoreEntry(t, tip, have, x);
      cur := NextEntry(t, tip, x, |have|, step);
      have := have + [x];
      if |have| > 10 {
        step := step * 2;
      }
    }
    assert EntryAt(t, tip, have[|have| - 1], |have| - 1);
  }

  class CBlockLocator {
    var have: seq<Hash>

    /** Set: a null block gives the genesis block alone. */
    method Set(t: Tree, genesis: Hash, tip: Option<Hash>)
      requires WellFormed(t) && (tip.Some? ==> tip.value in t)
      modifies this
      ensures tip.None? ==> have == [genesis]
      ensures tip.Some? ==> have != [] && have[|have| - 1] == genesis && Covers(t, tip.value, have[..|have| - 1])
    {
      have := [];
      if tip.Some? {
        var own := Entries(t, tip.value);
        have := own;
        assert (own + [genesis])[..|own|] == own;
      }
      have := have + [genesis];
    }

    /** GetBlockIndex: the first entry on the main chain. */
    method GetBlockIndex(t: Tree, next: map<Hash, Hash>, best: Hash, genesis: Hash) returns (r: Hash)
      ensures (exists i :: 0 <= i < |have| && Hit(t, next, best, have[i])) ==>
        exists i :: 0 <= i < |have| && r == have[i] && FirstHit(t, next, best, have, i)
      ensures (forall i :: 0 <= i < |have| ==> !Hit(t, next, best, have[i])) ==> r == genesis
    {
      var i := 0;
      while i < |have|
        invariant i <= |have| && forall j :: 0 <= j < i ==> !Hit(t, next, best, have[j])
      {
        if have[i] in t && IsInMainChain(next, best, have[i]) {
          assert FirstHit(t, next, best, have, i);
          return have[i];
        }
        i := i + 1;
      }
      r := genesis;
    }
  }

  predicate Hit(t: Tree, next: map<Hash, Hash>, best: Hash, x: Hash) {
    x in t && IsInMainChain(next, best, x)
  }

  ghost predicate FirstHit(t: Tree, next: map<Hash, Hash>, best: Hash, have: seq<Hash>, i: nat) {
    i < |have| && Hit(t, next, best, have[i]) && forall j :: 0 <= j < i ==> !Hit(t, next, best, have[j])
  }

  /** nStep when that many entries have been made. */
  function StepAt(n: nat): nat {
    if n <= 10 then 1 else Power2(n - 10)
  }

  lemma StepSize(n: nat)
    ensures Offset(n + 1) - Offset(n) == StepAt(n) && StepAt(n + 1) == if n + 1 > 10 then 2 * StepAt(n) else StepAt(n)
  {
    OffsetNext(n);
  }

  /** At most 12 + log2(height) entries, counting the genesis block at the end. */
  lemma LocatorSize(t: Tree, tip: Hash, have: seq<Hash>)
    requires WellFormed(t) && tip in t && t[tip].height >= 1 && Covers(t, tip, have)
    ensures |have| + 1 <= 12 || Power2(|have| + 1 - 12) <= t[tip].height
  {
  }

  /** The chains agree below the fork. */
  lemma CommonBelowFork(t: Tree, tip: Hash, best: Hash, f: Hash, x: Hash)
    requires WellFormed(t) && tip in t && best in t && IsFork(t, f, tip, best) && IsAncestor(t, x, tip)
    ensures f in t && x in t && (IsAncestor(t, x, best) <==> t[x].height <= t[f].height)
  {
    AncestorPath(t, f, tip);
    AncestorPath(t, f, best);
    AncestorPath(t, x, tip);
    if t[x].height <= t[f].height {
      assert x == Path(t, f)[t[x].height];
      assert Path(t, best)[t[x].height] == x;
    }
  }

  /** Of the tip's ancestors, exactly those no higher than the fork are hits, and common ancestors. */
  ghost predicate PartsAt(t: Tree, next: map<Hash, Hash>, best: Hash, tip: Hash, f: Hash)
    requires WellFormed(t) && tip in t && best in t
  {
    && f in t && t[f].height <= t[tip].height
    && forall x {:trigger Hit(t, next, best, x)} :: IsAncestor(t, x, tip) ==>
         && x in t && (Hit(t, next, best, x) <==> t[x].height <= t[f].height)
         && (Hit(t, next, best, x) ==> IsAncestor(t, x, best))
  }

  lemma PartsAtFork(t: Tree, next: map<Hash, Hash>, best: Hash, tip: Hash, f: Hash)
    requires WellFormed(t) && tip in t && best in t && LinksAlong(t, next, best) && IsFork(t, f, tip, best)
    ensures PartsAt(t, next, best, tip, f)
  {
    TipAboveFork(t, tip, best, f);
    forall x | IsAncestor(t, x, tip)
      ensures x in t && (Hit(t, next, best, x) <==> t[x].height <= t[f].height)
        && (Hit(t, next, best, x) ==> IsAncestor(t, x, best))
    {
      HitBelowFork(t, next, best, tip, f, x);
    }
  }

  /** Against any main chain of the same tree the locator finds a common ancestor that lies no
      further below the fork than the fork lies below the locator's tip. */
  lemma {:induction false} NearTheFork(t: Tree, next: map<Hash, Hash>, best: Hash, genesis: Hash, tip: Hash, f: Hash,
                                       have: seq<Hash>, i: nat)
    requires WellFormed(t) && tip in t && best in t && LinksAlong(t, next, best) && IsFork(t, f, tip, best)
    requires Path(t, tip)[0] == genesis
    requires have != [] && have[|have| - 1] == genesis && Covers(t, tip, have[..|have| - 1])
    requires FirstHit(t, next, best, have, i)
    ensures IsAncestor(t, have[i], tip) && IsAncestor(t, have[i], best)
    ensures f in t && have[i] in t && t[have[i]].height <= t[f].height
    ensures t[f].height - t[have[i]].height <= t[tip].height - t[f].height
  {
    PartsAtFork(t, next, best, tip, f);
    NearTheParting(t, next, best, genesis, tip, f, have, i);
  }

  lemma {:induction false} NearTheParting(t: Tree, next: map<Hash, Hash>, best: Hash, genesis: Hash, tip: Hash, f: Hash,
                                          have: seq<Hash>, i: nat)
    requires WellFormed(t) && tip in t && best in t && PartsAt(t, next, best, tip, f)
    requires Path(t, tip)[0] == genesis
    requires have != [] && have[|have| - 1] == genesis && Covers(t, tip, have[..|have| - 1])
    requires FirstHit(t, next, best, have, i)
    ensures IsAncestor(t, have[i], tip) && IsAncestor(t, have[i], best)
    ensures f in t && have[i] in t && t[have[i]].height <= t[f].height
    ensures t[f].height - t[have[i]].height <= t[tip].height - t[f].height
  {
    var o := Depth(t, tip, genesis, have, i);
    var d := t[tip].height - t[f].height;
    if i > 0 {
      var j := i - 1;
      var p := Depth(t, tip, genesis, have, j);
      assert !Hit(t, next, best, have[j]);
      OffsetClose(j, d, o);
    }
  }

  lemma OffsetClose(j: nat, d: int, o: nat)
    requires Offset(j) < d && o <= Offset(j + 1)
    ensures o <= 2 * d
  {
    OffsetNext(j);
  }

  lemma HitBelowFork(t: Tree, next: map<Hash, Hash>, best: Hash, tip: Hash, f: Hash, x: Hash)
    requires WellFormed(t) && tip in t && best in t && LinksAlong(t, next, best) && IsFork(t, f, tip, best)
    requires IsAncestor(t, x, tip)
    ensures f in t && x in t && (Hit(t, next, best, x) <==> t[x].height <= t[f].height)
    ensures Hit(t, next, best, x) ==> IsAncestor(t, x, best)
  {
    MainChainIsPath(t, next, best, x);
    CommonBelowFork(t, tip, best, f, x);
  }

  lemma TipAboveFork(t: Tree, tip: Hash, best: Hash, f: Hash)
    requires WellFormed(t) && tip in t && best in t && IsFork(t, f, tip, best)
    ensures f in t && t[f].height <= t[tip].height
  {
    AncestorPath(t, f, tip);
  }

  /** How far below the tip an entry lies, at most its offset. */
  lemma Depth(t: Tree, tip: Hash, genesis: Hash, have: seq<Hash>, i: nat) returns (o: nat)
    requires WellFormed(t) && tip in t && Path(t, tip)[0] == genesis && i < |have|
    requires have[|have| - 1] == genesis && Covers(t, tip, have[..|have| - 1])
    ensures o <= Offset(i) && (i < |have| - 1 ==> o == Offset(i))
    ensures IsAncestor(t, have[i], tip) && have[i] in t && t[have[i]].height == t[tip].height - o
  {
    if i < |have| - 1 {
      assert EntryAt(t, tip, have[..|have| - 1][i], i);
      o := Offset(i);
    } else {
      o := t[tip].height;
    }
    assert have[i] == Path(t, tip)[t[tip].height - o];
  }

  /** The genesis block at the end is a hit, so there is a first one. */
  lemma SomeHit(t: Tree, next: map<Hash, Hash>, best: Hash, genesis: Hash, tip: Hash, f: Hash, have: seq<Hash>)
    requires WellFormed(t) && tip in t && best in t && PartsAt(t, next, best, tip, f)
    requires Path(t, tip)[0] == genesis && have != [] && have[|have| - 1] == genesis
    ensures Hit(t, next, best, have[|have| - 1])
  {
    assert genesis in Path(t, tip) && t[genesis].height == 0;
  }

  /** What a peer finds for the locator of a block. */
  method Locate(t: Tree, next: map<Hash, Hash>, best: Hash, genesis: Hash, tip: Hash, ghost f: Hash) returns (r: Hash)
    requires WellFormed(t) && tip in t && best in t && LinksAlong(t, next, best) && IsFork(t, f, tip, best)
    requires Path(t, tip)[0] == genesis
    ensures IsAncestor(t, r, tip) && IsAncestor(t, r, best)
    ensures f in t && r in t && t[r].height <= t[f].height
    ensures t[f].height - t[r].height <= t[tip].height - t[f].height
  {
    PartsAtFork(t, next, best, tip, f);
    r := LocateFrom(t, next, best, genesis, tip, f);
  }

  method LocateFrom(t: Tree, next: map<Hash, Hash>, best: Hash, genesis: Hash, tip: Hash, ghost f: Hash)
    returns (r: Hash)
    requires WellFormed(t) && tip in t && best in t && PartsAt(t, next, best, tip, f) && Path(t, tip)[0] == genesis
    ensures IsAncestor(t, r, tip) && IsAncestor(t, r, best)
    ensures f in t && r in t && t[r].height <= t[f].height
    ensures t[f].height - t[r].height <= t[tip].height - t[f].height
  {
    var locator := new CBlockLocator;
    locator.Set(t, genesis, Some(tip));
    SomeHit(t, next, best, genesis, tip, f, locator.have);
    r := locator.GetBlockIndex(t, next, best, genesis);
    ghost var i :| 0 <= i < |locator.have| && r == locator.have[i] && FirstHit(t, next, best, locator.have, i);
    NearTheParting(t, next, best, genesis, tip, f, locator.have, i);
  }
}
