/** When a branch takes over the main chain and what it does to the transaction index and the recorded
    money supplies (Reorganize, SetBestChainInner and SetBestChain in src/main.cpp), on values. Nothing
    is assumed about the blocks: the index is whatever disconnecting and connecting make of it. */
module Switching {
  import opened Transactions
  import opened TxIndex
  import opened Blocks
  import opened BlockTree
  import opened Links

  /** Outside answers. */
  datatype Guards = Guards(
    modifierOk: bool,            // ComputeNextStakeModifier
    readable: Hash -> bool,      // ReadFromDisk
    checks: Hash -> Checks,      // the outside tests of ConnectBlock
    velocityOk: Hash -> bool,    // Velocity
    demiPeer: bool,              // fDemiPeerRelay and fDemiNodes
    reorgThreshold: int,         // BLOCK_REORG_THRESHOLD
    chainQualityOk: bool,        // RollingCheckpoints and the walk to the rolling block
    branchSupplyOk: bool)        // bIndex_Factor

  /** The transaction index and nMoneySupply of the blocks. */
  datatype Ledger = Ledger(index: TxMap, supply: map<Hash, int>)

  /** nMoneySupply, which is 0 in a new record. */
  function SupplyOf(supply: map<Hash, int>, h: Hash): int {
    if h in supply then supply[h] else 0
  }

  function PrevSupply(t: Tree, supply: map<Hash, int>, h: Hash): int
    requires h in t
  {
    match t[h].pprev
    case None => 0
    case Some(p) => SupplyOf(supply, p)
  }

  // ---------------------------------------------------------------- connecting

  function ContextOf(t: Tree, supply: map<Hash, int>, bestSupply: int, h: Hash): Context
    requires h in t
  {
    Context(t[h].at, t[h].height, PrevSupply(t, supply, h), bestSupply)
  }

  /** ConnectBlock accepts the block on top of a ledger. */
  ghost predicate Accepts(t: Tree, src: Source, g: Guards, bestSupply: int, l: Ledger, h: Hash)
    requires h in t
  {
    ConnectOk(l.index, src, t[h].block, ContextOf(t, l.supply, bestSupply, h), g.checks(h))
  }

  /** What ConnectBlock makes of a ledger. */
  function Extended(t: Tree, src: Source, l: Ledger, h: Hash): Ledger
    requires h in t
  {
    var b, at := t[h].block, t[h].at;
    Ledger(Connected(l.index, b, at),
           l.supply[h := PrevSupply(t, l.supply, h) + Gain(After(l.index, src, b.vtx, at, |b.vtx|))])
  }

  /** The ledger when the blocks above `f` up to `h` are connected to `l`. */
  function LedgerFrom(t: Tree, src: Source, l: Ledger, f: Hash, h: Hash): Ledger
    requires WellFormed(t) && h in t
    decreases t[h].height
  {
    if h == f || t[h].pprev.None? then l else Extended(t, src, LedgerFrom(t, src, l, f, t[h].pprev.value), h)
  }

  /** The block can be read, connects on top of its branch and, if `velocity` is set, passes Velocity. */
  ghost predicate Passes(t: Tree, src: Source, g: Guards, bestSupply: int, l: Ledger, f: Hash, velocity: bool, h: Hash)
    requires WellFormed(t)
  {
    && h in t && t[h].pprev.Some? && g.readable(h)
    && Accepts(t, src, g, bestSupply, LedgerFrom(t, src, l, f, t[h].pprev.value), h)
    && (velocity ==> g.velocityOk(h))
  }

  /** Every block above `f` up to `h` passes. */
  ghost predicate BranchPasses(t: Tree, src: Source, g: Guards, bestSupply: int, l: Ledger, f: Hash, velocity: bool,
                               h: Hash)
    requires WellFormed(t) && h in t
    decreases t[h].height
  {
    h == f || t[h].pprev.None? ||
    (BranchPasses(t, src, g, bestSupply, l, f, velocity, t[h].pprev.value)
     && Passes(t, src, g, bestSupply, l, f, velocity, h))
  }

  /** The highest block of the branch up to which every block passes. */
  ghost function Farthest(t: Tree, src: Source, g: Guards, bestSupply: int, l: Ledger, f: Hash, velocity: bool,
                          h: Hash): Hash
    requires WellFormed(t) && h in t
    decreases t[h].height
  {
    if h == f || t[h].pprev.None? then h
    else
      var p := Farthest(t, src, g, bestSupply, l, f, velocity, t[h].pprev.value);
      if p == t[h].pprev.value && Passes(t, src, g, bestSupply, l, f, velocity, h) then h else p
  }

  // ---------------------------------------------------------------- verdicts kept folded

  /** Marks a block whose verdict is to be looked up; see Judges. */
  ghost predicate Ask(h: Hash) {
    true
  }

  /** `pass` says of every block whether it passes. Loops carry `pass` so that verdicts stay folded. */
  ghost predicate Judges(pass: Hash -> bool, t: Tree, src: Source, g: Guards, bestSupply: int, l: Ledger, f: Hash,
                         velocity: bool)
    requires WellFormed(t)
  {
    forall h {:trigger Ask(h)} :: Ask(h) ==> (pass(h) <==> Passes(t, src, g, bestSupply, l, f, velocity, h))
  }

  ghost predicate PassUp(pass: Hash -> bool, t: Tree, f: Hash, h: Hash)
    requires WellFormed(t) && h in t
    decreases t[h].height
  {
    h == f || t[h].pprev.None? || (PassUp(pass, t, f, t[h].pprev.value) && pass(h))
  }

  ghost function FarthestBy(pass: Hash -> bool, t: Tree, f: Hash, h: Hash): Hash
    requires WellFormed(t) && h in t
    decreases t[h].height
  {
    if h == f || t[h].pprev.None? then h
    else
      var p := FarthestBy(pass, t, f, t[h].pprev.value);
      if p == t[h].pprev.value && pass(h) then h else p
  }

  lemma {:induction false} JudgedUp(pass: Hash -> bool, t: Tree, src: Source, g: Guards, bestSupply: int, l: Ledger,
                                    f: Hash, velocity: bool, h: Hash)
    requires WellFormed(t) && h in t && Judges(pass, t, src, g, bestSupply, l, f, velocity)
    ensures PassUp(pass, t, f, h) <==> BranchPasses(t, src, g, bestSupply, l, f, velocity, h)
    ensures FarthestBy(pass, t, f, h) == Farthest(t, src, g, bestSupply, l, f, velocity, h)
    decreases t[h].height
  {
    if h != f && t[h].pprev.Some? {
      assert Ask(h);
      JudgedUp(pass, t, src, g, bestSupply, l, f, velocity, t[h].pprev.value);
    }
  }

  /** A block that does not pass stops the branch. */
  lemma {:induction false} StopsAt(pass: Hash -> bool, t: Tree, f: Hash, p: Hash, x: Hash, h: Hash)
    requires WellFormed(t) && h in t && IsAncestor(t, x, h) && x in t && t[x].pprev == Some(p)
    requires IsAncestor(t, f, p) && PassUp(pass, t, f, p) && !pass(x)
    ensures !PassUp(pass, t, f, h) && FarthestBy(pass, t, f, h) == p != h
    decreases t[h].height
  {
    AncestorPath(t, x, h);
    AncestorPath(t, f, p);
    if h == x {
      PassesSoFar(pass, t, f, p);
    } else {
      StopsAt(pass, t, f, p, x, t[h].pprev.value);
      AncestorPath(t, x, t[h].pprev.value);
    }
  }

  lemma {:induction false} PassesSoFar(pass: Hash -> bool, t: Tree, f: Hash, h: Hash)
    requires WellFormed(t) && h in t && IsAncestor(t, f, h) && PassUp(pass, t, f, h)
    ensures FarthestBy(pass, t, f, h) == h
    decreases t[h].height
  {
    if h != f && t[h].pprev.Some? {
      PassesSoFar(pass, t, f, t[h].pprev.value);
    }
  }

  lemma {:induction false} FarthestIsAncestor(pass: Hash -> bool, t: Tree, f: Hash, h: Hash)
    requires WellFormed(t) && h in t && IsAncestor(t, f, h)
    ensures FarthestBy(pass, t, f, h) in t && IsAncestor(t, FarthestBy(pass, t, f, h), h)
    ensures IsAncestor(t, f, FarthestBy(pass, t, f, h)) && PassUp(pass, t, f, FarthestBy(pass, t, f, h))
    ensures FarthestBy(pass, t, f, h) == h <==> PassUp(pass, t, f, h)
    decreases t[h].height
  {
    if h != f && t[h].pprev.Some? {
      FarthestIsAncestor(pass, t, f, t[h].pprev.value);
      AncestorPath(t, FarthestBy(pass, t, f, t[h].pprev.value), t[h].pprev.value);
    }
  }

  // ---------------------------------------------------------------- disconnecting

  /** The index when the blocks from `b` down to, but without, `f` are disconnected. */
  function UndoneTo(t: Tree, v: TxMap, b: Hash, f: Hash): TxMap
    requires WellFormed(t) && b in t
    decreases t[b].height
  {
    if b == f || t[b].pprev.None? then v else UndoneTo(t, Disconnected(v, t[b].block), t[b].pprev.value, f)
  }

  /** Each of these blocks can be read and disconnected. */
  predicate UndoOk(t: Tree, g: Guards, v: TxMap, b: Hash, f: Hash)
    requires WellFormed(t) && b in t
    decreases t[b].height
  {
    b == f || t[b].pprev.None? ||
    (g.readable(b) && DisconnectOk(v, t[b].block) && UndoOk(t, g, Disconnected(v, t[b].block), t[b].pprev.value, f))
  }

  // ---------------------------------------------------------------- Reorganize

  const BLOCK_REORG_MAX_DEPTH: int := 1

  predicate DepthOk(t: Tree, g: Guards, best: Hash, h: Hash)
    requires best in t && h in t
  {
    var ahead := t[h].height - t[best].height;
    ahead <= BLOCK_REORG_MAX_DEPTH || (g.demiPeer && ahead <= g.reorgThreshold)
  }

  /** The highest common ancestor, if there is one. */
  ghost function ForkOf(t: Tree, a: Hash, b: Hash): Option<Hash>
    requires WellFormed(t) && a in t && b in t
  {
    if exists f :: IsFork(t, f, a, b) then
      var f :| IsFork(t, f, a, b);
      Some(f)
    else None
  }

  lemma ForkOfIs(t: Tree, f: Hash, a: Hash, b: Hash)
    requires WellFormed(t) && a in t && b in t && IsFork(t, f, a, b)
    ensures ForkOf(t, a, b) == Some(f)
  {
    var x := ForkOf(t, a, b).value;
    ForkUnique(t, f, x, a, b);
  }

  function AtFork(t: Tree, l: Ledger, best: Hash, f: Hash): Ledger
    requires WellFormed(t) && best in t
  {
    Ledger(UndoneTo(t, l.index, best, f), l.supply)
  }

  /** Reorganize succeeds: depth, chain quality and branch supply pass, every block of the old branch
      can be read and disconnected, and every block of the new branch passes. */
  ghost predicate SwitchOk(t: Tree, src: Source, g: Guards, l: Ledger, best: Hash, h: Hash)
    requires WellFormed(t) && best in t && h in t
  {
    && DepthOk(t, g, best, h) && g.chainQualityOk && g.branchSupplyOk
    && ForkOf(t, best, h).Some? && SwitchAt(t, src, g, l, ForkOf(t, best, h).value, best, h)
  }

  ghost predicate SwitchAt(t: Tree, src: Source, g: Guards, l: Ledger, f: Hash, best: Hash, h: Hash)
    requires WellFormed(t) && best in t && h in t
  {
    && UndoOk(t, g, l.index, best, f)
    && BranchPasses(t, src, g, SupplyOf(l.supply, best), AtFork(t, l, best, f), f, true, h)
  }

  /** The ledger after a successful Reorganize. */
  ghost function Switched(t: Tree, src: Source, l: Ledger, best: Hash, h: Hash): Ledger
    requires WellFormed(t) && best in t && h in t
  {
    match ForkOf(t, best, h)
    case None => l
    case Some(f) => LedgerFrom(t, src, AtFork(t, l, best, f), f, h)
  }

  // ---------------------------------------------------------------- SetBestChain

  /** The block SetBestChain hands to Reorganize: it goes back from `h` while the predecessor
      already beats the bar. */
  function Intermediate(t: Tree, bar: int, h: Hash): (r: Hash)
    requires WellFormed(t) && h in t
    ensures r in t
    decreases t[h].height
  {
    if t[h].pprev.Some? && t[t[h].pprev.value].trust > bar then Intermediate(t, bar, t[h].pprev.value) else h
  }

  lemma {:induction false} IntermediateOnPath(t: Tree, bar: int, h: Hash)
    requires WellFormed(t) && h in t && t[h].trust > bar
    ensures Intermediate(t, bar, h) in t && IsAncestor(t, Intermediate(t, bar, h), h)
    ensures t[Intermediate(t, bar, h)].trust > bar
    decreases t[h].height
  {
    if t[h].pprev.Some? && t[t[h].pprev.value].trust > bar {
      IntermediateOnPath(t, bar, t[h].pprev.value);
    }
  }

  /** SetBestChain succeeds: the first block always, a block on the best one when it connects,
      any other when Reorganize succeeds for its intermediate block. */
  ghost predicate TakesOver(t: Tree, src: Source, g: Guards, best: Option<Hash>, l: Ledger, h: Hash)
    requires WellFormed(t) && h in t && (best.Some? ==> best.value in t)
  {
    best.Some? ==>
      var b := best.value;
      if t[h].pprev == best then Accepts(t, src, g, SupplyOf(l.supply, b), l, h)
      else SwitchOk(t, src, g, l, b, Intermediate(t, t[b].trust, h))
  }

  /** The block up to which the chain is connected then: the last one before the first postponed block
      that cannot be read or does not connect. */
  ghost function Reached(t: Tree, src: Source, g: Guards, best: Option<Hash>, l: Ledger, h: Hash): Hash
    requires WellFormed(t) && h in t && (best.Some? ==> best.value in t)
  {
    if best.None? || t[h].pprev == best then h
    else
      var b := best.value;
      var inner := Intermediate(t, t[b].trust, h);
      Farthest(t, src, g, SupplyOf(l.supply, b), Switched(t, src, l, b, inner), inner, false, h)
  }

  /** The ledger then. */
  ghost function LedgerAfter(t: Tree, src: Source, g: Guards, best: Option<Hash>, l: Ledger, h: Hash): Ledger
    requires WellFormed(t) && h in t && (best.Some? ==> best.value in t)
  {
    if best.None? then l
    else if t[h].pprev == best then Extended(t, src, l, h)
    else
      var b := best.value;
      var inner := Intermediate(t, t[b].trust, h);
      var reached := Reached(t, src, g, best, l, h);
      if reached in t then LedgerFrom(t, src, Switched(t, src, l, b, inner), inner, reached) else l
  }

  /** No postponed block fails. */
  ghost predicate NoneLeftBehind(t: Tree, src: Source, g: Guards, best: Option<Hash>, l: Ledger, h: Hash)
    requires WellFormed(t) && h in t && (best.Some? ==> best.value in t)
  {
    best.Some? && t[h].pprev != best ==>
      var b := best.value;
      var inner := Intermediate(t, t[b].trust, h);
      BranchPasses(t, src, g, SupplyOf(l.supply, b), Switched(t, src, l, b, inner), inner, false, h)
  }

  /** The chain is connected up to the new best block exactly if no postponed block fails; otherwise
      it ends in an ancestor of it. */
  lemma ReachedIs(t: Tree, src: Source, g: Guards, best: Option<Hash>, l: Ledger, h: Hash)
    requires WellFormed(t) && h in t && (best.Some? ==> best.value in t && t[h].trust > t[best.value].trust)
    ensures Reached(t, src, g, best, l, h) in t && IsAncestor(t, Reached(t, src, g, best, l, h), h)
    ensures Reached(t, src, g, best, l, h) == h <==> NoneLeftBehind(t, src, g, best, l, h)
    ensures best.Some? && t[h].pprev != best ==>
      IsAncestor(t, Intermediate(t, t[best.value].trust, h), Reached(t, src, g, best, l, h))
  {
    if best.Some? && t[h].pprev != best {
      var b := best.value;
      var inner := Intermediate(t, t[b].trust, h);
      var s, bs := Switched(t, src, l, b, inner), SupplyOf(l.supply, b);
      IntermediateOnPath(t, t[b].trust, h);
      var pass := x => Passes(t, src, g, bs, s, inner, false, x);
      JudgedUp(pass, t, src, g, bs, s, inner, false, h);
      FarthestIsAncestor(pass, t, inner, h);
    }
  }

  // ---------------------------------------------------------------- the links

  /** The links after a successful Reorganize. */
  ghost function SwitchedLinks(t: Tree, next: map<Hash, Hash>, best: Hash, h: Hash): map<Hash, Hash>
    requires WellFormed(t) && best in t && h in t
  {
    match ForkOf(t, best, h)
    case None => next
    case Some(f) => LinkedTo(t, UnlinkedTo(t, next, best, f), f, h)
  }

  /** The links after a takeover. */
  ghost function LinksAfter(t: Tree, src: Source, g: Guards, best: Option<Hash>, l: Ledger, next: map<Hash, Hash>,
                            h: Hash): map<Hash, Hash>
    requires WellFormed(t) && h in t && (best.Some? ==> best.value in t)
  {
    if best.None? then next
    else if t[h].pprev == best then next[best.value := h]
    else
      var b := best.value;
      var inner := Intermediate(t, t[b].trust, h);
      var reached := Reached(t, src, g, best, l, h);
      if reached in t then LinkedTo(t, SwitchedLinks(t, next, b, inner), inner, reached) else next
  }

  /** No link was missing where the new chain branches off the old one. */
  ghost predicate Unbroken(t: Tree, best: Option<Hash>, next: map<Hash, Hash>, h: Hash)
    requires WellFormed(t) && h in t && (best.Some? ==> best.value in t)
  {
    best.Some? ==>
      var b := best.value;
      if t[h].pprev == best then LinkedBelow(t, next, b)
      else
        var fork := ForkOf(t, b, Intermediate(t, t[b].trust, h));
        fork.Some? ==> fork.value in t && LinkedBelow(t, next, fork.value)
  }

  lemma AlongUnbroken(t: Tree, best: Hash, next: map<Hash, Hash>, h: Hash)
    requires WellFormed(t) && h in t && best in t && LinksAlong(t, next, best)
    ensures Unbroken(t, Some(best), next, h)
  {
    var fork := ForkOf(t, best, Intermediate(t, t[best].trust, h));
    if fork.Some? {
      AncestorPath(t, fork.value, best);
      forall x | x in Path(t, fork.value) && x != fork.value ensures x in next {
        assert x in Path(t, best);
        AncestorPath(t, x, fork.value);
      }
    }
  }

  lemma SwitchLinks(t: Tree, next: map<Hash, Hash>, best: Hash, h: Hash, f: Hash)
    requires WellFormed(t) && best in t && h in t && ForkOf(t, best, h) == Some(f) && LinksWithin(t, next, best)
    ensures f in t && LinksWithin(t, SwitchedLinks(t, next, best, h), h)
    ensures LinksAlong(t, SwitchedLinks(t, next, best, h), h) <==> LinkedBelow(t, next, f)
  {
    Unlinked(t, next, best, f);
    Linked(t, UnlinkedTo(t, next, best, f), f, h);
  }

  /** Links within the best chain stay so. They lead along the new chain up to the block that is reached
      exactly if none was missing where it branches off. */
  lemma LinksReach(t: Tree, src: Source, g: Guards, best: Option<Hash>, l: Ledger, next: map<Hash, Hash>, h: Hash)
    requires WellFormed(t) && h in t && (best.None? ==> next == map[] && t[h].pprev.None?)
    requires best.Some? ==>
      best.value in t && LinksWithin(t, next, best.value) && t[h].trust > t[best.value].trust
    requires TakesOver(t, src, g, best, l, h)
    ensures var after, reached := LinksAfter(t, src, g, best, l, next, h), Reached(t, src, g, best, l, h);
            && reached in t && LinksWithin(t, after, reached)
            && (LinksAlong(t, after, reached) <==> Unbroken(t, best, next, h))
  {
    if best.Some? {
      if t[h].pprev == best {
        Link(t, next, h);
      } else {
        var b := best.value;
        var inner := Intermediate(t, t[b].trust, h);
        var reached := Reached(t, src, g, best, l, h);
        ReachedIs(t, src, g, best, l, h);
        SwitchLinks(t, next, b, inner, ForkOf(t, b, inner).value);
        Linked(t, SwitchedLinks(t, next, b, inner), inner, reached);
      }
    }
  }

  /** So they lead along the whole new chain exactly if, besides, no postponed block failed. */
  lemma LinksReachBest(t: Tree, src: Source, g: Guards, best: Option<Hash>, l: Ledger, next: map<Hash, Hash>, h: Hash)
    requires WellFormed(t) && h in t && (best.None? ==> next == map[] && t[h].pprev.None?)
    requires best.Some? ==>
      best.value in t && LinksWithin(t, next, best.value) && t[h].trust > t[best.value].trust
    requires TakesOver(t, src, g, best, l, h)
    ensures var after := LinksAfter(t, src, g, best, l, next, h);
            && LinksWithin(t, after, h)
            && (LinksAlong(t, after, h) <==> Unbroken(t, best, next, h) && NoneLeftBehind(t, src, g, best, l, h))
  {
    LinksReach(t, src, g, best, l, next, h);
    ReachedIs(t, src, g, best, l, h);
    WithinTells(t, LinksAfter(t, src, g, best, l, next, h), Reached(t, src, g, best, l, h), h);
  }

  // ---------------------------------------------------------------- frames

  /** The recorded supplies of the chain that ends in `h` are the same. */
  ghost predicate SameSupplies(t: Tree, supply: map<Hash, int>, supply': map<Hash, int>, h: Hash)
    requires WellFormed(t) && h in t
  {
    forall x {:trigger SupplyOf(supply', x)} :: IsAncestor(t, x, h) ==>
      SupplyOf(supply', x) == SupplyOf(supply, x) && (x in supply ==> x in supply')
  }
}
