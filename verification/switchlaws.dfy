/** When a branch takes over the main chain (SetBestChain and Reorganize in src/main.cpp), said of the blocks of the
    two branches and of the index that each block's own chain leads to. */
module SwitchLaws {
  import opened Transactions
  import opened TxIndex
  import opened Blocks
  import opened Supply
  import opened Heights
  import opened BlockTree
  import opened Links
  import opened Switching
  import opened Chain

  // ---------------------------------------------------------------- the block handed to Reorganize

  /** From `r` up to `h` every block beats the bar, and the predecessor of `r` does not. */
  ghost predicate FirstBeyond(t: Tree, bar: int, r: Hash, h: Hash)
    requires WellFormed(t) && h in t
  {
    && IsAncestor(t, r, h) && r in t && t[r].trust > bar
    && (t[r].pprev.Some? ==> t[t[r].pprev.value].trust <= bar)
  }

  /** The intermediate block is the first block on the way up to `h` that beats the bar. */
  lemma IntermediateExactly(t: Tree, bar: int, r: Hash, h: Hash)
    requires WellFormed(t) && h in t && t[h].trust > bar
    ensures r == Intermediate(t, bar, h) <==> FirstBeyond(t, bar, r, h)
  {
    IntermediateFirst(t, bar, h);
    if FirstBeyond(t, bar, r, h) {
      OneFirst(t, bar, r, Intermediate(t, bar, h), h);
      OneFirst(t, bar, Intermediate(t, bar, h), r, h);
      AncestorPath(t, r, h);
      AncestorPath(t, Intermediate(t, bar, h), h);
    }
  }

  lemma {:induction false} IntermediateFirst(t: Tree, bar: int, h: Hash)
    requires WellFormed(t) && h in t && t[h].trust > bar
    ensures FirstBeyond(t, bar, Intermediate(t, bar, h), h)
    decreases t[h].height
  {
    if t[h].pprev.Some? && t[t[h].pprev.value].trust > bar {
      IntermediateFirst(t, bar, t[h].pprev.value);
    }
  }

  lemma OneFirst(t: Tree, bar: int, r: Hash, r': Hash, h: Hash)
    requires WellFormed(t) && h in t && FirstBeyond(t, bar, r, h) && FirstBeyond(t, bar, r', h)
    ensures t[r].height <= t[r'].height
  {
    if t[r'].height < t[r].height {
      BelowOnPath(t, r', r, h);
      TrustAlongPath(t, r', t[r].pprev.value);
    }
  }

  /** The lower of two blocks of a path is an ancestor of the other's predecessor. */
  lemma BelowOnPath(t: Tree, a: Hash, b: Hash, h: Hash)
    requires WellFormed(t) && h in t && IsAncestor(t, a, h) && IsAncestor(t, b, h)
    requires a in t && b in t && t[a].height < t[b].height
    ensures t[b].pprev.Some? && IsAncestor(t, a, t[b].pprev.value)
  {
    AncestorPath(t, a, h);
    AncestorPath(t, b, h);
    assert Path(t, b)[t[a].height] == a;
    assert t[b].pprev.Some? by { assert t[b].height > 0; }
    assert Path(t, b) == Path(t, t[b].pprev.value) + [b];
  }

  // ---------------------------------------------------------------- when Reorganize succeeds

  /** The new block is at most one above the best one, or at most the threshold above it and relayed by a demi-node. */
  lemma DepthExactly(t: Tree, g: Guards, best: Hash, h: Hash)
    requires best in t && h in t
    ensures DepthOk(t, g, best, h) <==>
      || t[h].height <= t[best].height + 1
      || (g.demiPeer && t[h].height <= t[best].height + g.reorgThreshold)
  {
  }

  /** The block connects to the index of the chain that ends in its predecessor, with the money supply there, and
      with the reward that the supply of the best block allows. */
  ghost predicate ConnectsToOwn(t: Tree, src: Source, g: Guards, best: Hash, h: Hash)
    requires WellFormed(t) && best in t
  {
    && h in t && t[h].pprev.Some?
    && var p := t[h].pprev.value;
       ConnectOk(IndexAt(t, p), src, t[h].block,
                 Context(t[h].at, t[h].height, SupplyAt(t, src.disk, p), SupplyAt(t, src.disk, best)), g.checks(h))
  }

  /** It can be read, connects and, where `velocity` asks for it, passes Velocity. */
  ghost predicate Good(t: Tree, src: Source, g: Guards, best: Hash, velocity: bool, h: Hash)
    requires WellFormed(t) && best in t
  {
    g.readable(h) && (velocity ==> g.velocityOk(h)) && ConnectsToOwn(t, src, g, best, h)
  }

  /** A ledger that describes the predecessor's chain is what the block must connect to. */
  lemma AcceptsIs(t: Tree, src: Source, g: Guards, best: Hash, l: Ledger, h: Hash)
    requires WellFormed(t) && best in t && h in t && t[h].pprev.Some? && Describes(t, src.disk, l, t[h].pprev.value)
    ensures Accepts(t, src, g, SupplyAt(t, src.disk, best), l, h) <==> ConnectsToOwn(t, src, g, best, h)
  {
  }

  /** The blocks above `f` on the way up to `h` are all good. */
  ghost predicate AllGood(t: Tree, src: Source, g: Guards, best: Hash, velocity: bool, f: Hash, h: Hash)
    requires WellFormed(t) && best in t && h in t && f in t
  {
    forall x :: IsAncestor(t, x, h) && !IsAncestor(t, x, f) ==> Good(t, src, g, best, velocity, x)
  }

  lemma AboveFork(t: Tree, f: Hash, h: Hash, x: Hash)
    requires WellFormed(t) && h in t && f in t && IsAncestor(t, f, h) && h != f && t[h].pprev.Some?
    ensures IsAncestor(t, x, h) && !IsAncestor(t, x, f)
            <==> x == h || (IsAncestor(t, x, t[h].pprev.value) && !IsAncestor(t, x, f))
    ensures IsAncestor(t, f, t[h].pprev.value)
  {
    assert Path(t, h) == Path(t, t[h].pprev.value) + [h];
    AncestorPath(t, f, t[h].pprev.value);
    if IsAncestor(t, h, f) {
      AncestorPath(t, h, f);
    }
  }

  lemma GoodUp(t: Tree, src: Source, g: Guards, best: Hash, velocity: bool, f: Hash, h: Hash)
    requires WellFormed(t) && best in t && h in t && f in t && IsAncestor(t, f, h) && h != f && t[h].pprev.Some?
    ensures AllGood(t, src, g, best, velocity, f, h)
            <==> AllGood(t, src, g, best, velocity, f, t[h].pprev.value) && Good(t, src, g, best, velocity, h)
  {
    forall x
      ensures IsAncestor(t, x, h) && !IsAncestor(t, x, f)
              <==> x == h || (IsAncestor(t, x, t[h].pprev.value) && !IsAncestor(t, x, f)) {
      AboveFork(t, f, h, x);
    }
  }

  /** Connecting a branch on top of what describes its foot succeeds exactly if each of its blocks is good. */
  lemma {:induction false} BranchExactly(t: Tree, src: Source, g: Guards, best: Hash, l: Ledger, f: Hash,
                                         velocity: bool, h: Hash)
    requires TreeOk(t, src.disk) && NoCollision(src.disk) && best in t && h in t && IsAncestor(t, f, h)
    requires Describes(t, src.disk, l, f)
    ensures BranchPasses(t, src, g, SupplyAt(t, src.disk, best), l, f, velocity, h)
            <==> AllGood(t, src, g, best, velocity, f, h)
    decreases t[h].height
  {
    AncestorPath(t, f, h);
    if h != f {
      AboveFork(t, f, h, h);
      BranchExactly(t, src, g, best, l, f, velocity, t[h].pprev.value);
      GoodUp(t, src, g, best, velocity, f, h);
      PassesExactly(t, src, g, best, l, f, velocity, h);
    }
  }

  /** On top of a branch that passes, a block passes exactly if it is good. */
  lemma PassesExactly(t: Tree, src: Source, g: Guards, best: Hash, l: Ledger, f: Hash, velocity: bool, h: Hash)
    requires TreeOk(t, src.disk) && NoCollision(src.disk) && best in t && h in t && t[h].pprev.Some?
    requires IsAncestor(t, f, t[h].pprev.value) && Describes(t, src.disk, l, f)
    ensures BranchPasses(t, src, g, SupplyAt(t, src.disk, best), l, f, velocity, t[h].pprev.value) ==>
      (Passes(t, src, g, SupplyAt(t, src.disk, best), l, f, velocity, h) <==> Good(t, src, g, best, velocity, h))
  {
    var p, bs := t[h].pprev.value, SupplyAt(t, src.disk, best);
    if BranchPasses(t, src, g, bs, l, f, velocity, p) {
      ConnectDescribes(t, src, g, bs, l, f, velocity, p);
      AcceptsIs(t, src, g, best, LedgerFrom(t, src, l, f, p), h);
    }
  }

  lemma {:induction false} ReadableExactly(t: Tree, g: Guards, b: Hash, f: Hash)
    requires WellFormed(t) && b in t && IsAncestor(t, f, b) && f in t
    ensures ReadableDown(t, g, b, f) <==> forall x :: IsAncestor(t, x, b) && !IsAncestor(t, x, f) ==> g.readable(x)
    decreases t[b].height
  {
    AncestorPath(t, f, b);
    if b != f {
      var p := t[b].pprev.value;
      AboveFork(t, f, b, b);
      ReadableExactly(t, g, p, f);
      forall x
        ensures IsAncestor(t, x, b) && !IsAncestor(t, x, f)
                <==> x == b || (IsAncestor(t, x, p) && !IsAncestor(t, x, f)) {
        AboveFork(t, f, b, x);
      }
    }
  }

  /** What a reorganization from `best` to `h` needs: an admissible depth, the outside tests, a common ancestor, and
      that every block of the old branch alone can be read and every block of the new branch alone is good. */
  ghost predicate Needs(t: Tree, src: Source, g: Guards, best: Hash, h: Hash)
    requires WellFormed(t) && best in t && h in t
  {
    && (t[h].height <= t[best].height + 1 || (g.demiPeer && t[h].height <= t[best].height + g.reorgThreshold))
    && g.chainQualityOk && g.branchSupplyOk
    && (exists f :: IsFork(t, f, best, h))
    && (forall x :: IsAncestor(t, x, best) && !IsAncestor(t, x, h) ==> g.readable(x))
    && (forall x :: IsAncestor(t, x, h) && !IsAncestor(t, x, best) ==> Good(t, src, g, best, true, x))
  }

  lemma ForkSplits(t: Tree, f: Hash, a: Hash, b: Hash, x: Hash)
    requires WellFormed(t) && a in t && b in t && IsFork(t, f, a, b) && f in t
    ensures IsAncestor(t, x, a) && !IsAncestor(t, x, b) <==> IsAncestor(t, x, a) && !IsAncestor(t, x, f)
    ensures IsAncestor(t, x, b) && !IsAncestor(t, x, a) <==> IsAncestor(t, x, b) && !IsAncestor(t, x, f)
  {
    AncestorPath(t, f, a);
    AncestorPath(t, f, b);
    if IsAncestor(t, x, a) && IsAncestor(t, x, b) {
      AncestorPath(t, x, a);
      assert Path(t, f)[t[x].height] == x;
    }
  }

  /** Reorganize succeeds exactly then, if index and supplies describe the best chain: whatever it makes of the index
      on the way, each block is tested against the index of its own chain. */
  lemma ReorganizeExactly(t: Tree, src: Source, g: Guards, l: Ledger, best: Hash, h: Hash)
    requires TreeOk(t, src.disk) && NoCollision(src.disk) && best in t && h in t && Describes(t, src.disk, l, best)
    ensures SwitchOk(t, src, g, l, best, h) <==> Needs(t, src, g, best, h)
  {
    if f :| IsFork(t, f, best, h) {
      ForkOfIs(t, f, best, h);
      AncestorPath(t, f, best);
      UndoDescribes(t, g, best, f);
      ReadableExactly(t, g, best, f);
      CleanBelow(t, f, best);
      SupplyBelow(t, src.disk, l.supply, f, best);
      BranchExactly(t, src, g, best, AtFork(t, l, best, f), f, true, h);
      forall x
        ensures IsAncestor(t, x, best) && !IsAncestor(t, x, h) <==> IsAncestor(t, x, best) && !IsAncestor(t, x, f)
        ensures IsAncestor(t, x, h) && !IsAncestor(t, x, best) <==> IsAncestor(t, x, h) && !IsAncestor(t, x, f) {
        ForkSplits(t, f, best, h, x);
      }
    }
  }

  /** A block takes over exactly if it connects to the best one, or the first block of its branch that has more trust
      than the best one can be reorganized to. */
  lemma TakesOverExactly(t: Tree, src: Source, g: Guards, l: Ledger, best: Hash, h: Hash, r: Hash)
    requires TreeOk(t, src.disk) && NoCollision(src.disk) && best in t && h in t && Describes(t, src.disk, l, best)
    requires t[h].trust > t[best].trust && FirstBeyond(t, t[best].trust, r, h)
    ensures TakesOver(t, src, g, Some(best), l, h)
            <==> if t[h].pprev == Some(best) then ConnectsToOwn(t, src, g, best, h) else Needs(t, src, g, best, r)
  {
    IntermediateExactly(t, t[best].trust, r, h);
    if t[h].pprev == Some(best) {
      AcceptsIs(t, src, g, best, l, h);
    } else {
      ReorganizeExactly(t, src, g, l, best, r);
    }
  }

  // ---------------------------------------------------------------- how far a takeover reaches

  /** Above `f` every block up to `x` is good, and the next one on the way up to `h`, if there is one, is not. */
  ghost predicate GoodUpTo(t: Tree, src: Source, g: Guards, best: Hash, f: Hash, x: Hash, h: Hash)
    requires WellFormed(t) && best in t && h in t
  {
    && f in t && x in t && IsAncestor(t, f, x) && IsAncestor(t, x, h) && AllGood(t, src, g, best, false, f, x)
    && forall y :: y in t && t[y].pprev == Some(x) && IsAncestor(t, y, h) ==> !Good(t, src, g, best, false, y)
  }

  lemma {:induction false} FarthestExactly(t: Tree, src: Source, g: Guards, best: Hash, l: Ledger, f: Hash, h: Hash)
    requires TreeOk(t, src.disk) && NoCollision(src.disk) && best in t && h in t && IsAncestor(t, f, h)
    requires Describes(t, src.disk, l, f)
    ensures GoodUpTo(t, src, g, best, f, Farthest(t, src, g, SupplyAt(t, src.disk, best), l, f, false, h), h)
    decreases t[h].height
  {
    AncestorPath(t, f, h);
    if h == f {
      NothingAbove(t, h);
      assert IsAncestor(t, h, h);
    } else {
      var p, bs := t[h].pprev.value, SupplyAt(t, src.disk, best);
      AboveFork(t, f, h, h);
      FarthestExactly(t, src, g, best, l, f, p);
      var x := Farthest(t, src, g, bs, l, f, false, p);
      BranchExactly(t, src, g, best, l, f, false, p);
      PassesExactly(t, src, g, best, l, f, false, h);
      OneUp(t, src, g, best, f, x, h);
    }
  }

  lemma NothingAbove(t: Tree, h: Hash)
    requires WellFormed(t) && h in t
    ensures forall y :: y in t && t[y].pprev == Some(h) ==> !IsAncestor(t, y, h)
  {
    forall y | y in t && t[y].pprev == Some(h) ensures !IsAncestor(t, y, h) {
      if IsAncestor(t, y, h) {
        AncestorPath(t, y, h);
      }
    }
  }

  lemma OneUp(t: Tree, src: Source, g: Guards, best: Hash, f: Hash, x: Hash, h: Hash)
    requires WellFormed(t) && best in t && h in t && t[h].pprev.Some? && f in t && IsAncestor(t, f, h) && h != f
    requires GoodUpTo(t, src, g, best, f, x, t[h].pprev.value)
    ensures x == t[h].pprev.value && Good(t, src, g, best, false, h) ==> GoodUpTo(t, src, g, best, f, h, h)
    ensures !(x == t[h].pprev.value && Good(t, src, g, best, false, h)) ==> GoodUpTo(t, src, g, best, f, x, h)
  {
    var p := t[h].pprev.value;
    assert Path(t, h) == Path(t, p) + [h];
    GoodUp(t, src, g, best, false, f, h);
    NothingAbove(t, h);
  }

  /** After a takeover by way of a reorganization to `r`, the chain is connected up to the last block on the way to
      `h` such that it and all before it can be read and connect to the index of their own chains. */
  lemma ReachedExactly(t: Tree, src: Source, g: Guards, l: Ledger, best: Hash, h: Hash, r: Hash)
    requires TreeOk(t, src.disk) && NoCollision(src.disk) && best in t && h in t && Describes(t, src.disk, l, best)
    requires t[h].trust > t[best].trust && t[h].pprev != Some(best) && FirstBeyond(t, t[best].trust, r, h)
    requires Needs(t, src, g, best, r)
    ensures GoodUpTo(t, src, g, best, r, Reached(t, src, g, Some(best), l, h), h)
  {
    IntermediateExactly(t, t[best].trust, r, h);
    ReorganizeExactly(t, src, g, l, best, r);
    SwitchDescribes(t, src, g, l, best, r);
    FarthestExactly(t, src, g, best, Switched(t, src, l, best, r), r, h);
  }

  /** There is only one such block. */
  lemma ReachedUnique(t: Tree, src: Source, g: Guards, best: Hash, f: Hash, x: Hash, x': Hash, h: Hash)
    requires WellFormed(t) && best in t && h in t
    requires GoodUpTo(t, src, g, best, f, x, h) && GoodUpTo(t, src, g, best, f, x', h)
    ensures x == x'
  {
    AncestorPath(t, x, h);
    AncestorPath(t, x', h);
    if t[x].height < t[x'].height {
      var y := NextIsGood(t, src, g, best, f, x, x', h);
    } else if t[x'].height < t[x].height {
      var y := NextIsGood(t, src, g, best, f, x', x, h);
    }
  }

  /** Below the block reached the next one on the way is good. */
  lemma NextIsGood(t: Tree, src: Source, g: Guards, best: Hash, f: Hash, x: Hash, x': Hash, h: Hash) returns (y: Hash)
    requires WellFormed(t) && best in t && h in t && x in t && x' in t && t[x].height < t[x'].height
    requires IsAncestor(t, f, x) && IsAncestor(t, x, h) && GoodUpTo(t, src, g, best, f, x', h)
    ensures y in t && t[y].pprev == Some(x) && IsAncestor(t, y, h) && Good(t, src, g, best, false, y)
  {
    var p := Path(t, h);
    var n := t[x].height + 1;
    AncestorPath(t, x, h);
    AncestorPath(t, x', h);
    ParentOnPath(t, h, n);
    y := p[n];
    assert y in p && Path(t, x')[n] == y;
    AncestorPath(t, f, x);
    if IsAncestor(t, y, f) {
      AncestorPath(t, y, f);
    }
  }
}
