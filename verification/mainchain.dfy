/** The operations that move the main chain: Reorganize, SetBestChainInner, SetBestChain,
    AddToBlockIndex, AcceptBlock and FindBlockByHeight (src/main.cpp), over the globals they update. */
module MainChain {
  import opened Transactions
  import opened TxIndex
  import opened Blocks
  import opened BlockTree
  import opened Links
  import opened Switching
  import opened Supply
  import opened Heights
  import opened Chain

  class ChainState {
    const db: TxDb
    const genesisHash: Hash
    var src: Source                  // block files and memory pool
    var fileEnd: nat                 // end of the current block file
    var tree: Tree                   // mapBlockIndex
    var next: map<Hash, Hash>        // pnext, where not null
    var supply: map<Hash, int>       // nMoneySupply
    var genesis: Option<Hash>        // pindexGenesisBlock
    var best: Option<Hash>           // pindexBest; nBestHeight and nBestChainTrust are its height and trust
    var cache: Option<Hash>          // pblockindexFBBHLast

    /** The transaction index as committed, and the recorded supplies. */
    ghost function Books(): Ledger
      reads this, db
    {
      Ledger(db.committed, supply)
    }

    /** The transaction index as the open database transaction sees it, and the recorded supplies. */
    ghost function Pending(): Ledger
      reads this, db
    {
      Ledger(db.View(), supply)
    }

    /** What holds between operations of everything but the links. */
    ghost predicate Base()
      reads this, db
    {
      && WellFormed(tree) && !db.active
      && (best.None? ==> tree == map[] && genesis.None? && next == map[] && db.committed == map[] && cache.None?)
      && (best.Some? ==> best.value in tree && genesis.Some? && OneRoot(tree, genesis.value)
                         && (cache.Some? ==> IsAncestor(tree, cache.value, best.value)))
    }

    /** What holds between operations: every link is one of the best chain. */
    ghost predicate Valid()
      reads this, db
    {
      Base() && (best.Some? ==> LinksWithin(tree, next, best.value))
    }

    /** And none is missing: the links lead along the whole best chain. */
    ghost predicate Whole()
      reads this, db
    {
      Valid() && (best.Some? ==> LinksAlong(tree, next, best.value))
    }

    constructor (genesisHash: Hash)
      ensures Whole() && tree == map[] && best.None? && fresh(db) && this.genesisHash == genesisHash
      ensures src == Source(map[], map[]) && Tracks(best) && InFile(src.disk, fileEnd)
    {
      this.genesisHash := genesisHash;
      db := new TxDb();
      src, fileEnd := Source(map[], map[]), 0;
      tree, next, supply := map[], map[], map[];
      genesis, best, cache := None, None, None;
    }

    // -------------------------------------------------------------- Reorganize

    /** ConnectBlock for a block of the tree, recording its nMoneySupply. */
    method ConnectOne(h: Hash, g: Guards) returns (ok: bool)
      requires h in tree && best.Some?
      modifies db, `supply
      ensures db.active == old(db.active) && (db.active ==> db.committed == old(db.committed))
      ensures ok <==> Accepts(tree, src, g, SupplyOf(old(supply), best.value), old(Pending()), h)
      ensures ok ==> Pending() == Extended(tree, src, old(Pending()), h)
      ensures !ok ==> Pending() == old(Pending())
    {
      ghost var l := Pending();
      var cx := ContextOf(tree, supply, SupplyOf(supply, best.value), h);
      var m, s;
      ok, m, s := ConnectBlock(db, src, tree[h].block, cx, g.checks(h));
      if ok {
        supply := supply[h := s];
        ExtendedIs(tree, src, l, h, db.View(), s);
      }
    }

    /** The disconnecting loop of Reorganize. */
    method DisconnectBranch(fork: Hash, from: Hash, list: seq<Hash>, g: Guards) returns (ok: bool)
      requires WellFormed(tree) && from in tree && IsAncestor(tree, fork, from)
      requires list == BranchBack(tree, fork, from) && db.active
      modifies db
      ensures db.active && db.committed == old(db.committed)
      ensures ok <==> UndoOk(tree, g, old(db.View()), from, fork)
      ensures ok ==> db.View() == UndoneTo(tree, old(db.View()), from, fork)
    {
      ghost var cur := from;
      for i := 0 to |list|
        invariant db.active && db.committed == old(db.committed)
        invariant cur in tree && IsAncestor(tree, fork, cur) && list[i..] == BranchBack(tree, fork, cur)
        invariant UndoOk(tree, g, db.View(), cur, fork) <==> UndoOk(tree, g, old(db.View()), from, fork)
        invariant UndoneTo(tree, db.View(), cur, fork) == UndoneTo(tree, old(db.View()), from, fork)
      {
        var h := list[i];
        BackStep(tree, fork, cur);
        if !g.readable(h) {
          return false;
        }
        ok := DisconnectBlock(db, tree[h].block);
        if !ok {
          return;
        }
        cur := tree[h].pprev.value;
      }
      BackStep(tree, fork, cur);
      return true;
    }

    /** One round of the connecting loop of Reorganize, for a block off the main chain. */
    method ConnectStep(ghost p: Hash, h: Hash, g: Guards, ghost pass: Hash -> bool, ghost l: Ledger, ghost f: Hash)
      returns (ok: bool)
      requires WellFormed(tree) && p in tree && h in tree && tree[h].pprev == Some(p) && h != f
      requires Pending() == LedgerFrom(tree, src, l, f, p)
      requires best.Some? && Judges(pass, tree, src, g, SupplyOf(supply, best.value), l, f, true)
      modifies db, `supply
      ensures db.active == old(db.active) && (db.active ==> db.committed == old(db.committed))
      ensures ok <==> pass(h)
      ensures ok ==> Pending() == LedgerFrom(tree, src, l, f, h)
      ensures supply == old(supply) || (h in supply && supply == old(supply)[h := supply[h]])
    {
      assert Ask(h);
      if !g.readable(h) {
        return false;
      }
      ok := ConnectOne(h, g);
      if ok {
        ok := g.velocityOk(h);
      }
    }

    /** The connecting loop of Reorganize. */
    method ConnectBranch(fork: Hash, to: Hash, list: seq<Hash>, g: Guards, ghost pass: Hash -> bool, ghost l: Ledger)
      returns (ok: bool)
      requires WellFormed(tree) && to in tree && fork in tree && IsAncestor(tree, fork, to)
      requires list == Branch(tree, fork, to) && db.active && Pending() == l
      requires best.Some? && best.value in tree && OffChain(tree, best.value, list)
      requires Judges(pass, tree, src, g, SupplyOf(supply, best.value), l, fork, true)
      modifies db, `supply
      ensures db.active && db.committed == old(db.committed)
      ensures SameSupplies(tree, old(supply), supply, best.value)
      ensures ok <==> PassUp(pass, tree, fork, to)
      ensures ok ==> Pending() == LedgerFrom(tree, src, l, fork, to)
    {
      ghost var cur, bs := fork, SupplyOf(supply, best.value);
      BranchStart(tree, fork, to);
      for i := 0 to |list|
        invariant db.active && db.committed == old(db.committed) && SupplyOf(supply, best.value) == bs
        invariant Reaches(tree, list, i, cur, to) && IsAncestor(tree, fork, cur) && PassUp(pass, tree, fork, cur)
        invariant Pending() == LedgerFrom(tree, src, l, fork, cur)
        invariant SameSupplies(tree, old(supply), supply, best.value)
      {
        BranchAt(tree, fork, to, i);
        ghost var before := supply;
        ok := ConnectStep(cur, list[i], g, pass, l, fork);
        OffChainKeeps(tree, old(supply), before, supply, best.value, list, i);
        FollowedTo(pass, tree, fork, cur, list[i], to);
        if !ok {
          return;
        }
        cur := list[i];
      }
      return true;
    }

    /** The loop that clears pnext along the disconnected branch. */
    method UnlinkBranch(fork: Hash, from: Hash, list: seq<Hash>)
      requires WellFormed(tree) && from in tree && IsAncestor(tree, fork, from)
      requires fork in tree && list == BranchBack(tree, fork, from)
      modifies `next
      ensures next == UnlinkedTo(tree, old(next), from, fork)
    {
      ghost var cur := from;
      for i := 0 to |list|
        invariant cur in tree && IsAncestor(tree, fork, cur) && list[i..] == BranchBack(tree, fork, cur)
        invariant UnlinkedTo(tree, next, cur, fork) == UnlinkedTo(tree, old(next), from, fork)
      {
        BackStep(tree, fork, cur);
        next := next - {tree[list[i]].pprev.value};
        cur := tree[list[i]].pprev.value;
      }
      BackStep(tree, fork, cur);
    }

    /** The loop that sets pnext along the connected branch. */
    method LinkBranch(fork: Hash, to: Hash, list: seq<Hash>)
      requires WellFormed(tree) && to in tree && IsAncestor(tree, fork, to)
      requires fork in tree && list == Branch(tree, fork, to)
      modifies `next
      ensures next == LinkedTo(tree, old(next), fork, to)
    {
      ghost var cur := fork;
      BranchStart(tree, fork, to);
      for i := 0 to |list|
        invariant Reaches(tree, list, i, cur, to) && next == LinkedTo(tree, old(next), fork, cur)
      {
        BranchAt(tree, fork, to, i);
        next := next[tree[list[i]].pprev.value := list[i]];
        cur := list[i];
      }
    }

    /** The tests at the start of Reorganize, the fork search and the two lists. */
    method PlanSwitch(b: Hash, h: Hash, g: Guards)
      returns (fork: Option<Hash>, disconnect: seq<Hash>, connect: seq<Hash>)
      requires WellFormed(tree) && b in tree && h in tree
      ensures fork.Some? ==>
        && DepthOk(tree, g, b, h) && g.chainQualityOk && g.branchSupplyOk
        && IsFork(tree, fork.value, b, h) && fork.value in tree
        && disconnect == BranchBack(tree, fork.value, b) && connect == Branch(tree, fork.value, h)
        && Path(tree, b) == Path(tree, fork.value) + Reverse(disconnect)
        && Path(tree, h) == Path(tree, fork.value) + connect && OffChain(tree, b, connect)
      ensures fork.None? ==>
        !(DepthOk(tree, g, b, h) && g.chainQualityOk && g.branchSupplyOk && ForkOf(tree, b, h).Some?)
    {
      fork, disconnect, connect := None, [], [];
      var ahead := tree[h].height - tree[b].height;
      if ahead > BLOCK_REORG_MAX_DEPTH {
        if g.demiPeer {
          if ahead > g.reorgThreshold {
            return;
          }
        } else {
          return;
        }
      }
      if !g.chainQualityOk {
        return;
      }
      var found := FindFork(tree, b, h);
      if found == None || !g.branchSupplyOk {
        return;
      }
      fork := found;
      disconnect := CollectBack(tree, fork.value, b);
      connect := CollectBack(tree, fork.value, h);
      BranchReversed(tree, fork.value, b);
      BranchReversed(tree, fork.value, h);
      connect := Reverse(connect);
      PathSplits(tree, fork.value, b);
      PathSplits(tree, fork.value, h);
      BranchIsOff(tree, fork.value, b, h);
    }

    /** Reorganize. It succeeds exactly when SwitchOk says so; then links, index and supplies are what
        disconnecting and connecting make of them. When it fails -- a block cannot be
        read, disconnected or connected, or a test fails -- links and committed index are as before. */
    method Reorganize(h: Hash, g: Guards) returns (ok: bool)
      requires WellFormed(tree) && best.Some? && best.value in tree && h in tree
      requires db.active && db.View() == db.committed
      modifies db, `next, `supply
      ensures ok <==> SwitchOk(tree, src, g, old(Books()), best.value, h)
      ensures SupplyOf(supply, best.value) == SupplyOf(old(supply), best.value)
      ensures ok ==> !db.active && next == SwitchedLinks(tree, old(next), best.value, h)
      ensures ok ==> Books() == Switched(tree, src, old(Books()), best.value, h)
      ensures !ok ==> db.active && db.committed == old(db.committed) && next == old(next)
      ensures !ok ==> SameSupplies(tree, old(supply), supply, best.value)
    {
      var b := best.value;
      var fork, disconnect, connect := PlanSwitch(b, h, g);
      if fork == None {
        return false;
      }
      ghost var t, s, bs := tree, src, SupplyOf(supply, b);
      ForkOfIs(t, fork.value, b, h);
      ghost var l := AtFork(t, Books(), b, fork.value);
      ghost var pass := x => Passes(t, s, g, bs, l, fork.value, true, x);
      JudgedUp(pass, t, s, g, bs, l, fork.value, true, h);
      ok := SwitchTo(fork.value, h, disconnect, connect, g, pass, l);
    }

    /** The part of Reorganize that follows the fork search. */
    method SwitchTo(fork: Hash, h: Hash, disconnect: seq<Hash>, connect: seq<Hash>, g: Guards,
                    ghost pass: Hash -> bool, ghost l: Ledger)
      returns (ok: bool)
      requires WellFormed(tree) && best.Some? && best.value in tree && h in tree
      requires db.active && db.View() == db.committed && l == AtFork(tree, Books(), best.value, fork)
      requires IsAncestor(tree, fork, best.value) && IsAncestor(tree, fork, h) && OffChain(tree, best.value, connect)
      requires fork in tree && disconnect == BranchBack(tree, fork, best.value) && connect == Branch(tree, fork, h)
      requires Judges(pass, tree, src, g, SupplyOf(supply, best.value), l, fork, true)
      modifies db, `next, `supply
      ensures ok <==> UndoOk(tree, g, old(db.committed), best.value, fork) && PassUp(pass, tree, fork, h)
      ensures SupplyOf(supply, best.value) == SupplyOf(old(supply), best.value)
      ensures ok ==> next == LinkedTo(tree, UnlinkedTo(tree, old(next), best.value, fork), fork, h)
      ensures ok ==> !db.active && Books() == LedgerFrom(tree, src, l, fork, h)
      ensures !ok ==> db.active && db.committed == old(db.committed) && next == old(next)
      ensures !ok ==> SameSupplies(tree, old(supply), supply, best.value)
    {
      TipIsAncestor(tree, best.value);
      ok := DisconnectBranch(fork, best.value, disconnect, g);
      if !ok {
        return;
      }
      ok := ConnectBranch(fork, h, connect, g, pass, l);
      if ok {
        db.TxnCommit();
        MoveLinks(fork, h, disconnect, connect);
      }
    }

    /** The two loops of Reorganize over the links. */
    method MoveLinks(fork: Hash, h: Hash, disconnect: seq<Hash>, connect: seq<Hash>)
      requires WellFormed(tree) && best.Some? && best.value in tree && h in tree
      requires IsAncestor(tree, fork, best.value) && IsAncestor(tree, fork, h) && fork in tree
      requires disconnect == BranchBack(tree, fork, best.value) && connect == Branch(tree, fork, h)
      modifies `next
      ensures next == LinkedTo(tree, UnlinkedTo(tree, old(next), best.value, fork), fork, h)
    {
      UnlinkBranch(fork, best.value, disconnect);
      LinkBranch(fork, h, connect);
    }

    // -------------------------------------------------------------- SetBestChain

    /** CBlock::SetBestChainInner: one more block on top of the chain that ends in its
        predecessor; when it does not connect, the transaction is abandoned. */
    method SetBestChainInner(p: Hash, h: Hash, g: Guards) returns (ok: bool)
      requires WellFormed(tree) && h in tree && tree[h].pprev == Some(p)
      requires db.active && db.View() == db.committed && best.Some?
      modifies db, `next, `supply
      ensures !db.active
      ensures ok <==> Accepts(tree, src, g, SupplyOf(old(supply), best.value), old(Books()), h)
      ensures ok ==> next == old(next)[p := h] && Books() == Extended(tree, src, old(Books()), h)
      ensures !ok ==> next == old(next) && Books() == old(Books())
    {
      ok := ConnectOne(h, g);
      if !ok {
        db.TxnAbort();
        return;
      }
      db.TxnCommit();
      next := next[p := h];
    }

    /** The loop of SetBestChain that finds the block to hand to Reorganize and postpones the rest. */
    method Postpone(h: Hash) returns (inner: Hash, later: seq<Hash>)
      requires WellFormed(tree) && h in tree && best.Some? && best.value in tree
      requires tree[h].trust > tree[best.value].trust
      ensures inner == Intermediate(tree, tree[best.value].trust, h)
      ensures inner in tree && IsAncestor(tree, inner, h) && tree[inner].trust > tree[best.value].trust
      ensures later == BranchBack(tree, inner, h)
    {
      ghost var bar := tree[best.value].trust;
      ghost var end := Intermediate(tree, bar, h);
      IntermediateOnPath(tree, bar, h);
      inner, later := h, [];
      while tree[inner].pprev.Some? && tree[tree[inner].pprev.value].trust > tree[best.value].trust
        invariant inner in tree && Intermediate(tree, bar, inner) == end && IsAncestor(tree, end, inner)
        invariant later + BranchBack(tree, end, inner) == BranchBack(tree, end, h)
        decreases tree[inner].height
      {
        IntermediateLower(tree, bar, inner);
        BackStep(tree, end, inner);
        later := later + [inner];
        inner := tree[inner].pprev.value;
      }
      BackStep(tree, end, inner);
    }

    /** One round of the loop over the postponed blocks. */
    method FollowStep(ghost p: Hash, h: Hash, g: Guards, ghost pass: Hash -> bool, ghost l: Ledger,
                      ghost k: map<Hash, Hash>, ghost f: Hash, ghost top: Hash)
      returns (ok: bool)
      requires WellFormed(tree) && p in tree && h in tree && tree[h].pprev == Some(p) && h != f
      requires IsAncestor(tree, f, p) && PassUp(pass, tree, f, p) && top in tree && IsAncestor(tree, h, top)
      requires next == LinkedTo(tree, k, f, p) && !db.active && Books() == LedgerFrom(tree, src, l, f, p)
      requires best.Some? && best.value != h && Judges(pass, tree, src, g, SupplyOf(supply, best.value), l, f, false)
      modifies db, `next, `supply
      ensures !db.active && SupplyOf(supply, best.value) == SupplyOf(old(supply), best.value)
      ensures if ok then PassUp(pass, tree, f, h) else FarthestBy(pass, tree, f, top) == p
      ensures ok ==> next == LinkedTo(tree, k, f, h) && Books() == LedgerFrom(tree, src, l, f, h)
      ensures !ok ==> next == old(next) && Books() == old(Books())
    {
      assert Ask(h);
      FollowedTo(pass, tree, f, p, h, top);
      if !g.readable(h) {
        return false;
      }
      db.TxnBegin();
      ok := SetBestChainInner(tree[h].pprev.value, h, g);
    }

    /** The same for the block that is `i`-th from the end of the list. */
    method FollowLater(ghost p: Hash, i: nat, inner: Hash, h: Hash, later: seq<Hash>, g: Guards,
                       ghost pass: Hash -> bool, ghost l: Ledger, ghost k: map<Hash, Hash>)
      returns (ok: bool, x: Hash)
      requires WellFormed(tree) && h in tree && inner in tree && IsAncestor(tree, inner, h)
      requires i < |later| && later == BranchBack(tree, inner, h) && |later| == |Branch(tree, inner, h)|
      requires Reaches(tree, Branch(tree, inner, h), i, p, h) && IsAncestor(tree, inner, p)
      requires PassUp(pass, tree, inner, p) && next == LinkedTo(tree, k, inner, p)
      requires !db.active && Books() == LedgerFrom(tree, src, l, inner, p)
      requires best.Some? && best.value in tree && tree[inner].trust > tree[best.value].trust
      requires Judges(pass, tree, src, g, SupplyOf(supply, best.value), l, inner, false)
      modifies db, `next, `supply
      ensures !db.active && SupplyOf(supply, best.value) == SupplyOf(old(supply), best.value)
      ensures ok ==> Reaches(tree, Branch(tree, inner, h), i + 1, x, h) && IsAncestor(tree, inner, x)
      ensures ok ==> PassUp(pass, tree, inner, x) && next == LinkedTo(tree, k, inner, x)
      ensures ok ==> Books() == LedgerFrom(tree, src, l, inner, x)
      ensures !ok ==> FarthestBy(pass, tree, inner, h) == p && next == old(next) && Books() == old(Books())
    {
      x := later[|later| - 1 - i];
      LaterAt(tree, inner, h, i, best.value);
      ok := FollowStep(p, x, g, pass, l, k, inner, h);
    }

    /** The loop of SetBestChain over the postponed blocks, last collected first. It stops at
        the first block that does not connect; links, index and supplies are those of the chain so far. */
    method ConnectLater(inner: Hash, h: Hash, later: seq<Hash>, g: Guards, ghost pass: Hash -> bool, ghost l: Ledger)
      returns (ghost reached: Hash)
      requires WellFormed(tree) && h in tree && inner in tree && IsAncestor(tree, inner, h)
      requires later == BranchBack(tree, inner, h) && !db.active && Books() == l
      requires best.Some? && best.value in tree && tree[inner].trust > tree[best.value].trust
      requires Judges(pass, tree, src, g, SupplyOf(supply, best.value), l, inner, false)
      modifies db, `next, `supply
      ensures !db.active && reached == FarthestBy(pass, tree, inner, h) && reached in tree
      ensures next == LinkedTo(tree, old(next), inner, reached)
      ensures Books() == LedgerFrom(tree, src, l, inner, reached)
    {
      reached := inner;
      ghost var bs := SupplyOf(supply, best.value);
      BranchReversed(tree, inner, h);
      BranchStart(tree, inner, h);
      TipIsAncestor(tree, inner);
      for i := 0 to |later|
        invariant !db.active && SupplyOf(supply, best.value) == bs
        invariant Reaches(tree, Branch(tree, inner, h), i, reached, h) && IsAncestor(tree, inner, reached)
        invariant PassUp(pass, tree, inner, reached) && next == LinkedTo(tree, old(next), inner, reached)
        invariant Books() == LedgerFrom(tree, src, l, inner, reached)
      {
        var ok, x := FollowLater(reached, i, inner, h, later, g, pass, l, old(next));
        if !ok {
          return;
        }
        reached := x;
      }
      PassesSoFar(pass, tree, inner, reached);
    }

    /** The third case of SetBestChain: reorganize, then connect the postponed blocks. */
    method SwitchAndFollow(h: Hash, g: Guards) returns (ok: bool)
      requires WellFormed(tree) && h in tree && best.Some? && best.value in tree
      requires db.active && db.View() == db.committed && tree[h].trust > tree[best.value].trust && tree[h].pprev != best
      modifies db, `next, `supply
      ensures !db.active
      ensures ok <==> TakesOver(tree, src, g, best, old(Books()), h)
      ensures ok ==> next == LinksAfter(tree, src, g, best, old(Books()), old(next), h)
      ensures ok ==> Books() == LedgerAfter(tree, src, g, best, old(Books()), h)
      ensures !ok ==> next == old(next) && db.committed == old(db.committed)
      ensures !ok ==> SameSupplies(tree, old(supply), supply, best.value)
    {
      var inner, later := Postpone(h);
      ok := Reorganize(inner, g);
      if !ok {
        db.TxnAbort();
        return;
      }
      ghost var t, s, bs, l := tree, src, SupplyOf(supply, best.value), Books();
      ghost var pass := x => Passes(t, s, g, bs, l, inner, false, x);
      JudgedUp(pass, t, s, g, bs, l, inner, false, h);
      ghost var reached := ConnectLater(inner, h, later, g, pass, l);
    }

    /** CBlock::SetBestChain. It succeeds exactly when TakesOver says so; then links, index and supplies
        are those that LinksAfter and LedgerAfter give. When it does not succeed, best block, cache, links
        and committed index are as before. */
    method SetBestChain(h: Hash, g: Guards, ghost takes: bool, ghost links: map<Hash, Hash>, ghost after: Ledger)
      returns (ok: bool)
      requires WellFormed(tree) && !db.active && h in tree
      requires best.None? ==> genesis.None? && h == genesisHash && tree[h].pprev.None? && next == map[]
      requires best.Some? ==> best.value in tree && genesis.Some?
      requires best.Some? ==> tree[h].trust > tree[best.value].trust && tree[h].pprev.Some?
      requires Foretells(takes, links, after, tree, src, g, best, Books(), next, h)
      modifies db, `next, `supply, `genesis, `best, `cache
      ensures !db.active && (ok <==> takes)
      ensures genesis == if old(genesis).None? then Some(h) else old(genesis)
      ensures ok ==> best == Some(h) && cache.None? && next == links && Books() == after
      ensures !ok ==> best == old(best) && cache == old(cache) && next == old(next) && db.committed == old(db.committed)
      ensures !ok ==> best.Some? && SameSupplies(tree, old(supply), supply, best.value)
    {
      db.TxnBegin();
      assert Ask(h);
      if genesis.None? && h == genesisHash {
        db.TxnCommit();
        genesis := Some(h);
        ok := true;
      } else if tree[h].pprev == best {
        ok := SetBestChainInner(best.value, h, g);
      } else {
        ok := SwitchAndFollow(h, g);
      }
      if ok {
        best, cache := Some(h), None;
      }
    }

    // -------------------------------------------------------------- AddToBlockIndex

    /** Links, index and money supply are those of the chain that ends in `tip`, the last two as long as
        transaction ids do not collide. */
    ghost predicate Tracks(tip: Option<Hash>)
      reads this, db
    {
      && Base() && (tip.None? <==> best.None?)
      && (tip.Some? ==> tip.value in tree && LinksAlong(tree, next, tip.value))
      && (tip.Some? && NoCollision(src.disk) ==> Describes(tree, src.disk, Books(), tip.value))
    }

    /** `tip` is the block up to which the best chain is connected after the block `h` was added. */
    ghost predicate TipIs(tip: Option<Hash>, before: Option<Hash>, l: Ledger, g: Guards, h: Hash)
      reads this
    {
      if best == before then tip == best
      else
        && WellFormed(tree) && h in tree && (before.Some? ==> before.value in tree)
        && tip == Some(Reached(tree, src, g, before, l, h))
    }

    /** The outcome of entering a new record. The best block changes exactly if the block wins. */
    ghost predicate Entered(t: Tree, links: map<Hash, Hash>, before: Option<Hash>, l: Ledger, g: Guards, h: Hash,
                            x: Index)
      reads this, db
    {
      && tree == t[h := x] && best == (if Wins(t, src, g, before, l, h, x) then Some(h) else before)
      && (best == before ==> next == links && Stayed(tree, NewLedger(l, h), best, Books()))
      && (best != before ==> Moved(tree, links, next, src, g, before, NewLedger(l, h), h, Books()))
    }

    /** The part of AddToBlockIndex that enters the record into mapBlockIndex. */
    method InsertRecord(h: Hash, x: Index)
      requires Valid() && NewRecord(tree, h, x) && (tree == map[] <==> x.pprev.None?)
      modifies `tree, `supply
      ensures tree == old(tree)[h := x] && supply == old(supply)[h := 0] && WellFormed(tree)
      ensures best.Some? ==> best.value in tree && LinksWithin(tree, next, best.value) && OneRoot(tree, genesis.value)
      ensures best.Some? && cache.Some? ==> IsAncestor(tree, cache.value, best.value)
    {
      WellFormedGrows(tree, h, x);
      if best.Some? {
        PathExtends(tree, tree[h := x], best.value);
        LinksGrow(tree, next, best.value, h, x);
      }
      tree, supply := tree[h := x], supply[h := 0];
    }

    /** The part of AddToBlockIndex that follows when the new block has more trust than the best. */
    method Advance(h: Hash, g: Guards) returns (r: bool)
      requires WellFormed(tree) && !db.active && h in tree && tree[h].trust > TrustOf(tree, best)
      requires best.None? ==>
        && genesis.None? && h == genesisHash && tree[h].pprev.None? && OneRoot(tree, h) && next == map[]
      requires best.Some? ==> Base() && tree[h].pprev.Some? && best != Some(h)
      modifies db, `next, `supply, `genesis, `best, `cache
      ensures Base() && (r <==> TakesOver(tree, src, g, old(best), old(Books()), h))
      ensures best == if r then Some(h) else old(best)
      ensures r ==> next == LinksAfter(tree, src, g, old(best), old(Books()), old(next), h)
      ensures r ==> Books() == LedgerAfter(tree, src, g, old(best), old(Books()), h)
      ensures !r ==> best.Some? && next == old(next) && cache == old(cache) && db.committed == old(db.committed)
      ensures !r ==> SameSupplies(tree, old(supply), supply, best.value)
    {
      ghost var takes := TakesOver(tree, src, g, best, Books(), h);
      ghost var links := LinksAfter(tree, src, g, best, Books(), next, h);
      ghost var after := LedgerAfter(tree, src, g, best, Books(), h);
      r := SetBestChain(h, g, takes, links, after);
    }

    /** The part of AddToBlockIndex that follows the construction of the record. */
    method Enter(h: Hash, x: Index, g: Guards) returns (r: bool)
      requires Valid() && NewRecord(tree, h, x) && (tree == map[] <==> x.pprev.None?) && g.modifierOk
      requires tree == map[] ==> h == genesisHash && x.trust > 0
      modifies this, db
      ensures src == old(src) && fileEnd == old(fileEnd) && Valid() && (best == old(best) ==> cache == old(cache))
      ensures Entered(old(tree), old(next), old(best), old(Books()), g, h, x)
      ensures r <==> x.trust <= TrustOf(old(tree), old(best)) || best == Some(h)
    {
      var bar := TrustOf(tree, best);
      if x.trust <= bar {
        InsertRecord(h, x);
        return true;
      }
      r := Challenge(h, x, g);
    }

    /** The same for a block with more trust than the best. */
    method Challenge(h: Hash, x: Index, g: Guards) returns (r: bool)
      requires Valid() && NewRecord(tree, h, x) && (tree == map[] <==> x.pprev.None?) && g.modifierOk
      requires (tree == map[] ==> h == genesisHash) && x.trust > TrustOf(tree, best)
      modifies this, db
      ensures src == old(src) && fileEnd == old(fileEnd) && Valid() && (best == old(best) ==> cache == old(cache))
      ensures Entered(old(tree), old(next), old(best), old(Books()), g, h, x)
      ensures r <==> best == Some(h)
    {
      ghost var l, links := NewLedger(Books(), h), next;
      InsertRecord(h, x);
      r := Advance(h, g);
      if r {
        MovedIs(tree, links, src, g, old(best), l, h);
      }
    }

    /** CBlock::AddToBlockIndex: the record, its height and trust, and the move to a chain with more
        trust. The best block changes exactly if the block wins, and so only upwards in trust. The links
        stay links of the best chain, and no link is missing then exactly if none was missing where the
        new chain branches off and no postponed block fails. Otherwise nothing changes but the record. */
    method AddToBlockIndex(b: Block, at: Location, blockTrust: nat, g: Guards) returns (r: bool)
      requires Valid()
      requires tree == map[] ==> b.hash == genesisHash && blockTrust > 0
      requires tree != map[] ==> b.prev in tree
      modifies this, db
      ensures src == old(src) && fileEnd == old(fileEnd) && Valid() && (best == old(best) ==> cache == old(cache))
      ensures old(b.hash in tree) || !g.modifierOk ==>
        !r && tree == old(tree) && best == old(best) && next == old(next) && Books() == old(Books())
      ensures old(b.hash !in tree) && g.modifierOk ==>
        && (r <==> Settled(old(tree), old(best), b, blockTrust, best))
        && Entered(old(tree), old(next), old(best), old(Books()), g, b.hash, MakeIndex(old(tree), b, at, blockTrust))
    {
      var h := b.hash;
      if h in tree || !g.modifierOk {
        return false;
      }
      var x := MakeIndex(tree, b, at, blockTrust);
      r := Enter(h, x, g);
    }

    /** The same for a block that is in the file and follows the height rule: index and money supply
        describe the chain the links lead along, if they did so before. */
    method AddGoodBlock(b: Block, at: Location, blockTrust: nat, g: Guards) returns (r: bool, ghost tip: Option<Hash>)
      requires Valid() && TreeOk(tree, src.disk)
      requires tree == map[] ==> b.hash == genesisHash && blockTrust > 0
      requires tree != map[] ==> b.prev in tree
      requires GoodRecord(src.disk, MakeIndex(tree, b, at, blockTrust))
      modifies this, db
      ensures src == old(src) && fileEnd == old(fileEnd) && Valid() && TreeOk(tree, src.disk)
      ensures old(Tracks(best)) ==> Tracks(tip)
      ensures TipIs(tip, old(best), NewLedger(old(Books()), b.hash), g, b.hash)
      ensures old(b.hash in tree) || !g.modifierOk ==>
        !r && tree == old(tree) && best == old(best) && next == old(next) && Books() == old(Books())
      ensures old(b.hash !in tree) && g.modifierOk ==>
        && (r <==> Settled(old(tree), old(best), b, blockTrust, best))
        && Entered(old(tree), old(next), old(best), old(Books()), g, b.hash, MakeIndex(old(tree), b, at, blockTrust))
    {
      ghost var t, l, links, before, x, h := tree, Books(), next, best, MakeIndex(tree, b, at, blockTrust), b.hash;
      ghost var tracked := Tracks(best);
      r := AddToBlockIndex(b, at, blockTrust, g);
      tip := if best == before then best else Some(Reached(tree, src, g, before, NewLedger(l, h), h));
      if h !in t && g.modifierOk {
        TreeGrows(t, src.disk, h, x);
        if tracked {
          if best != before {
            MovesTracked(t, src, g, links, before, l, h, x, next, Books());
          } else if best.Some? {
            StaysTracked(t, src.disk, links, best.value, l, h, x, Books());
          }
        }
      }
    }

    /** The writing itself: the block goes to the end of the file, after an eight-byte prefix. */
    method AppendBlock(b: Block) returns (at: Location)
      requires InFile(src.disk, fileEnd) && forall i :: 0 <= i < |b.vtx| ==> b.vtx[i].size > 0
      modifies `src, `fileEnd
      ensures InFile(src.disk, fileEnd) && Stored(src.disk, b.vtx, at) && src.mempool == old(src.mempool)
      ensures Contains(old(src.disk), src.disk)
    {
      at := Location(1, fileEnd + 8);
      var disk := AppendTxs(src.disk, b.vtx, at, fileEnd);
      src, fileEnd := Source(disk, src.mempool), at.pos + TxOffset(b.vtx, |b.vtx|);
    }

    /** CBlock::WriteToDisk. */
    method WriteToDisk(b: Block) returns (at: Location)
      requires InFile(src.disk, fileEnd) && forall i :: 0 <= i < |b.vtx| ==> b.vtx[i].size > 0
      modifies `src, `fileEnd
      ensures InFile(src.disk, fileEnd) && Stored(src.disk, b.vtx, at) && src.mempool == old(src.mempool)
      ensures Contains(old(src.disk), src.disk)
      ensures old(TreeOk(tree, src.disk)) ==> TreeOk(tree, src.disk) && (old(Tracks(best)) ==> Tracks(best))
    {
      ghost var before := src;
      at := AppendBlock(b);
      if old(TreeOk(tree, src.disk)) {
        StoredStable(tree, before.disk, src.disk);
        if old(Tracks(best)) {
          FileGrows(tree, before, src.disk, Books(), best);
        }
      }
    }

    /** The part of LoadBlockIndex that enters the genesis block. */
    method LoadGenesis(b: Block, blockTrust: nat, g: Guards) returns (r: bool, ghost at: Location)
      requires Valid() && InFile(src.disk, fileEnd) && forall i :: 0 <= i < |b.vtx| ==> b.vtx[i].size > 0
      requires tree == map[] && b.hash == genesisHash && blockTrust > 0
      modifies this, db
      ensures InFile(src.disk, fileEnd) && Stored(src.disk, b.vtx, at) && (r <==> g.modifierOk)
      ensures Whole() && TreeOk(tree, src.disk) && Tracks(best)
      ensures r ==> tree == map[b.hash := MakeIndex(map[], b, at, blockTrust)] && best == Some(b.hash)
      ensures r ==> db.committed == map[] && SupplyOf(supply, b.hash) == 0
      ensures !r ==> tree == map[] && best.None?
    {
      EmptyTree(src.disk);
      var place := WriteToDisk(b);
      at := place;
      ghost var tip;
      r, tip := AddGoodBlock(b, place, blockTrust, g);
    }

    /** The part of AcceptBlock that follows the tests. */
    method WriteAndAdd(b: Block, blockTrust: nat, g: Guards)
      returns (r: bool, ghost at: Location, ghost tip: Option<Hash>)
      requires Valid() && TreeOk(tree, src.disk) && InFile(src.disk, fileEnd)
      requires forall i :: 0 <= i < |b.vtx| ==> b.vtx[i].size > 0
      requires b.hash !in tree && b.prev in tree && HeightRule(b, tree[b.prev].height + 1)
      modifies this, db
      ensures InFile(src.disk, fileEnd) && Stored(src.disk, b.vtx, at) && Valid() && TreeOk(tree, src.disk)
      ensures old(Tracks(best)) ==> Tracks(tip)
      ensures TipIs(tip, old(best), NewLedger(old(Books()), b.hash), g, b.hash)
      ensures r <==> g.modifierOk && Settled(old(tree), old(best), b, blockTrust, best)
      ensures if g.modifierOk
        then Entered(old(tree), old(next), old(best), old(Books()), g, b.hash, MakeIndex(old(tree), b, at, blockTrust))
        else tree == old(tree) && best == old(best) && next == old(next) && Books() == old(Books())
    {
      ghost var l := Books();
      var place := WriteToDisk(b);
      at := place;
      assert Books() == l;
      r, tip := AddGoodBlock(b, place, blockTrust, g);
    }

    /** CBlock::AcceptBlock: a block that is known, whose predecessor is unknown, that fails one of the
        other rules (`rulesOk`) or whose coinbase does not tell its height is refused; any other is
        written to the file and added. Where links, index and supply are those of the best chain before,
        they are those of the chain to `tip` afterwards. */
    method AcceptBlock(b: Block, blockTrust: nat, g: Guards, rulesOk: bool)
      returns (r: bool, ghost at: Location, ghost tip: Option<Hash>)
      requires Valid() && TreeOk(tree, src.disk) && InFile(src.disk, fileEnd) && tree != map[]
      requires forall i :: 0 <= i < |b.vtx| ==> b.vtx[i].size > 0
      modifies this, db
      ensures InFile(src.disk, fileEnd) && Valid() && TreeOk(tree, src.disk)
      ensures old(Tracks(best)) ==> Tracks(tip)
      ensures TipIs(tip, old(best), NewLedger(old(Books()), b.hash), g, b.hash)
      ensures Refused(old(tree), b, rulesOk) ==> !r && src == old(src)
      ensures !Refused(old(tree), b, rulesOk) ==>
        Stored(src.disk, b.vtx, at) && (r <==> g.modifierOk && Settled(old(tree), old(best), b, blockTrust, best))
      ensures if !Refused(old(tree), b, rulesOk) && g.modifierOk
        then Entered(old(tree), old(next), old(best), old(Books()), g, b.hash, MakeIndex(old(tree), b, at, blockTrust))
        else tree == old(tree) && best == old(best) && next == old(next) && Books() == old(Books())
      ensures best == if !Refused(old(tree), b, rulesOk)
          && Wins(old(tree), src, g, old(best), old(Books()), b.hash, MakeIndex(old(tree), b, at, blockTrust))
        then Some(b.hash) else old(best)
    {
      if b.hash in tree || b.prev !in tree || !rulesOk || !HeightRule(b, tree[b.prev].height + 1) {
        return false, Location(0, 0), best;
      }
      r, at, tip := WriteAndAdd(b, blockTrust, g);
    }

    /** The record to start from: genesis, the tip or the cached one. */
    method NearestRecord(n: nat) returns (h: Hash)
      requires Valid() && best.Some?
      ensures h == StartOf(tree, genesis.value, best.value, cache, n)
      ensures h in tree && IsAncestor(tree, h, best.value)
    {
      var b := best.value;
      RootOfPath(tree, genesis.value, b);
      TipIsAncestor(tree, b);
      h := if n < tree[b].height / 2 then genesis.value else b;
      if cache.Some? {
        AncestorPath(tree, cache.value, b);
        if Distance(n, tree[h].height) > Distance(n, tree[cache.value].height) {
          h := cache.value;
        }
      }
    }

    /** FindBlockByHeight: it walks to the block of the best chain at that height and caches it. None stands
        for the read through a null pointer, where the chain is not that high or a link on the way up is
        missing. */
    method FindBlockByHeight(n: nat) returns (r: Option<Hash>)
      requires Valid() && best.Some?
      modifies `cache
      ensures Valid() && cache == if r.Some? then r else old(cache)
      ensures var start := StartOf(tree, genesis.value, best.value, old(cache), n);
              start in tree && (r.Some? <==> Climbs(tree, next, best.value, tree[start].height, n))
      ensures r.Some? ==> n <= tree[best.value].height && r.value == Path(tree, best.value)[n]
    {
      var h := NearestRecord(n);
      r := WalkTo(tree, next, best.value, h, n);
      if r.Some? {
        OnThePath(tree, best.value, n);
        cache := r;
      }
    }
  }

  /** So it never fails at a height of the chain where no link is missing. */
  lemma FindsEveryHeight(t: Tree, next: map<Hash, Hash>, genesis: Hash, best: Hash, cache: Option<Hash>, n: nat)
    requires WellFormed(t) && best in t && LinksAlong(t, next, best) && n <= t[best].height
    ensures var start := StartOf(t, genesis, best, cache, n);
            start in t ==> Climbs(t, next, best, t[start].height, n)
  {
    var start := StartOf(t, genesis, best, cache, n);
    AlongClimbs(t, next, best, if start in t then t[start].height else 0, n);
  }

  lemma OnThePath(t: Tree, h: Hash, n: nat)
    requires WellFormed(t) && h in t && n <= t[h].height
    ensures IsAncestor(t, Path(t, h)[n], h)
  {
  }

  /** The record FindBlockByHeight starts from. */
  function StartOf(t: Tree, genesis: Hash, best: Hash, cache: Option<Hash>, n: nat): Hash {
    var h := if best in t && n < t[best].height / 2 then genesis else best;
    if cache.Some? && h in t && cache.value in t && Distance(n, t[h].height) > Distance(n, t[cache.value].height)
    then cache.value else h
  }

  lemma EmptyTree(disk: map<DiskPos, Tx>)
    ensures TreeOk(map[], disk)
  {
  }

  /** A block that does not take over leaves the chain described. */
  lemma StaysTracked(t: Tree, disk: map<DiskPos, Tx>, next: map<Hash, Hash>, best: Hash, l: Ledger, h: Hash, x: Index,
                     after: Ledger)
    requires TreeOk(t, disk) && NewRecord(t, h, x) && TreeOk(t[h := x], disk) && best in t
    requires LinksAlong(t, next, best) && (NoCollision(disk) ==> Describes(t, disk, l, best))
    requires Stayed(t[h := x], NewLedger(l, h), Some(best), after)
    ensures LinksAlong(t[h := x], next, best) && (NoCollision(disk) ==> Describes(t[h := x], disk, after, best))
  {
    WellFormedGrows(t, h, x);
    PathExtends(t, t[h := x], best);
    LinksGrow(t, next, best, h, x);
    if NoCollision(disk) {
      DescribesGrows(t, disk, l, best, h, x);
      StayedDescribes(t[h := x], disk, NewLedger(l, h), best, after);
    }
  }

  /** A block that takes over leaves the chain described up to where the takeover reached. */
  lemma MovesTracked(t: Tree, src: Source, g: Guards, links: map<Hash, Hash>, best: Option<Hash>, l: Ledger, h: Hash,
                     x: Index, next: map<Hash, Hash>, after: Ledger)
    requires TreeOk(t, src.disk) && NewRecord(t, h, x) && TreeOk(t[h := x], src.disk)
    requires best.None? ==> t == map[] && l.index == map[] && x.pprev.None?
    requires best.Some? ==> best.value in t && x.pprev.Some? && LinksAlong(t, links, best.value)
    requires best.Some? && NoCollision(src.disk) ==> Describes(t, src.disk, l, best.value)
    requires Wins(t, src, g, best, l, h, x)
    requires Moved(t[h := x], links, next, src, g, best, NewLedger(l, h), h, after)
    ensures var reached := Reached(t[h := x], src, g, best, NewLedger(l, h), h);
            reached in t[h := x] && LinksAlong(t[h := x], next, reached)
            && (NoCollision(src.disk) ==> Describes(t[h := x], src.disk, after, reached))
  {
    if best.Some? {
      PathExtends(t, t[h := x], best.value);
      LinksGrow(t, links, best.value, h, x);
      AlongUnbroken(t[h := x], best.value, links, h);
    }
    if NoCollision(src.disk) {
      GrownDescribes(t, src, g, best, l, h, x);
    }
  }

  lemma {:induction false} GrownDescribes(t: Tree, src: Source, g: Guards, best: Option<Hash>, l: Ledger, h: Hash,
                                          x: Index)
    requires TreeOk(t, src.disk) && NewRecord(t, h, x) && TreeOk(t[h := x], src.disk) && NoCollision(src.disk)
    requires best.None? ==> t == map[] && l.index == map[] && x.pprev.None?
    requires best.Some? ==> best.value in t && x.pprev.Some? && Describes(t, src.disk, l, best.value)
    ensures best.Some? ==> Describes(t[h := x], src.disk, NewLedger(l, h), best.value)
    ensures Wins(t, src, g, best, l, h, x) ==>
      Describes(t[h := x], src.disk, LedgerAfter(t[h := x], src, g, best, NewLedger(l, h), h),
                Reached(t[h := x], src, g, best, NewLedger(l, h), h))
  {
    var t', l' := t[h := x], NewLedger(l, h);
    if best.Some? {
      DescribesGrows(t, src.disk, l, best.value, h, x);
    } else {
      FirstDescribes(t', src.disk, l', h);
    }
    if Wins(t, src, g, best, l, h, x) {
      TakeoverDescribes(t', src, g, best, l', h);
    }
  }

  /** What was true of the files stays true when they grow. */
  lemma FileGrows(t: Tree, src: Source, disk: map<DiskPos, Tx>, l: Ledger, tip: Option<Hash>)
    requires TreeOk(t, src.disk) && Contains(src.disk, disk)
    requires tip.Some? && NoCollision(src.disk) ==> Describes(t, src.disk, l, tip.value)
    ensures TreeOk(t, disk)
    ensures tip.Some? && NoCollision(disk) ==> Describes(t, disk, l, tip.value)
  {
    StoredStable(t, src.disk, disk);
    if tip.Some? && NoCollision(disk) {
      SupplyStable(t, src, disk, l.supply, tip.value);
    }
  }

  lemma StayedDescribes(t: Tree, disk: map<DiskPos, Tx>, l: Ledger, best: Hash, after: Ledger)
    requires Describes(t, disk, l, best) && Stayed(t, l, Some(best), after)
    ensures Describes(t, disk, after, best)
  {
    TipIsAncestor(t, best);
    SupplyAgrees(t, disk, l.supply, after.supply, best, best);
  }

  function NewLedger(l: Ledger, h: Hash): Ledger {
    Ledger(l.index, l.supply[h := 0])
  }

  /** The new block has no more trust than the best one had, or is the best one now. */
  predicate Settled(t: Tree, before: Option<Hash>, b: Block, blockTrust: nat, best: Option<Hash>) {
    (if b.prev in t then t[b.prev].trust else 0) + blockTrust <= TrustOf(t, before) || best == Some(b.hash)
  }

  /** AcceptBlock adds nothing. */
  predicate Refused(t: Tree, b: Block, rulesOk: bool) {
    b.hash in t || b.prev !in t || !rulesOk || !HeightRule(b, t[b.prev].height + 1)
  }

  /** The block is new, has more trust than the best one, and takes over. */
  ghost predicate Wins(t: Tree, src: Source, g: Guards, best: Option<Hash>, l: Ledger, h: Hash, x: Index) {
    && h !in t && g.modifierOk && x.trust > TrustOf(t, best)
    && WellFormed(t[h := x]) && (best.Some? ==> best.value in t[h := x])
    && TakesOver(t[h := x], src, g, best, NewLedger(l, h), h)
  }

  /** Nothing has changed but supplies recorded off the best chain. */
  ghost predicate Stayed(t: Tree, l: Ledger, best: Option<Hash>, after: Ledger) {
    && after.index == l.index
    && (best.Some? ==> WellFormed(t) && best.value in t && SameSupplies(t, l.supply, after.supply, best.value))
  }

  /** Links, index and supplies are those that a takeover by `h` gives. The links are links of its chain. No
      link is missing up to where the takeover reached exactly if none was missing where the new chain
      branches off, and none at all exactly if, besides, no postponed block fails. */
  ghost predicate Moved(t: Tree, links: map<Hash, Hash>, next: map<Hash, Hash>, src: Source, g: Guards,
                        best: Option<Hash>, l: Ledger, h: Hash, after: Ledger) {
    && WellFormed(t) && h in t && (best.Some? ==> best.value in t)
    && next == LinksAfter(t, src, g, best, l, links, h) && after == LedgerAfter(t, src, g, best, l, h)
    && var reached := Reached(t, src, g, best, l, h);
       && reached in t && IsAncestor(t, reached, h) && (reached == h <==> NoneLeftBehind(t, src, g, best, l, h))
       && (LinksAlong(t, next, reached) <==> Unbroken(t, best, links, h))
       && LinksWithin(t, next, h)
       && (LinksAlong(t, next, h) <==> Unbroken(t, best, links, h) && NoneLeftBehind(t, src, g, best, l, h))
  }

  lemma MovedIs(t: Tree, links: map<Hash, Hash>, src: Source, g: Guards, best: Option<Hash>, l: Ledger, h: Hash)
    requires WellFormed(t) && h in t && (best.None? ==> links == map[] && t[h].pprev.None?)
    requires best.Some? ==>
      best.value in t && LinksWithin(t, links, best.value) && t[h].trust > t[best.value].trust
    requires TakesOver(t, src, g, best, l, h)
    ensures Moved(t, links, LinksAfter(t, src, g, best, l, links, h), src, g, best, l, h,
                  LedgerAfter(t, src, g, best, l, h))
  {
    LinksReach(t, src, g, best, l, links, h);
    LinksReachBest(t, src, g, best, l, links, h);
    ReachedIs(t, src, g, best, l, h);
  }

  /** `takes`, `links` and `after` are the outcomes that TakesOver, LinksAfter and LedgerAfter foretell,
      kept folded. */
  ghost predicate Foretells(takes: bool, links: map<Hash, Hash>, after: Ledger, t: Tree, src: Source, g: Guards,
                            best: Option<Hash>, l: Ledger, next: map<Hash, Hash>, h: Hash)
    requires WellFormed(t) && h in t && (best.Some? ==> best.value in t)
  {
    forall x {:trigger Ask(x)} :: Ask(x) ==>
      && (takes <==> TakesOver(t, src, g, best, l, h))
      && links == LinksAfter(t, src, g, best, l, next, h)
      && after == LedgerAfter(t, src, g, best, l, h)
  }

  /** What the verdict on the next block means for the branch. */
  lemma FollowedTo(pass: Hash -> bool, t: Tree, f: Hash, p: Hash, x: Hash, h: Hash)
    requires WellFormed(t) && h in t && IsAncestor(t, x, h) && x in t && t[x].pprev == Some(p) && x != f
    requires IsAncestor(t, f, p) && PassUp(pass, t, f, p)
    ensures pass(x) ==> PassUp(pass, t, f, x)
    ensures !pass(x) ==> FarthestBy(pass, t, f, h) == p && !PassUp(pass, t, f, h)
  {
    if !pass(x) {
      StopsAt(pass, t, f, p, x, h);
    }
  }

  lemma ExtendedIs(t: Tree, src: Source, l: Ledger, h: Hash, v: TxMap, s: int)
    requires h in t && v == Connected(l.index, t[h].block, t[h].at)
    requires s == PrevSupply(t, l.supply, h) + Gain(After(l.index, src, t[h].block.vtx, t[h].at, |t[h].block.vtx|))
    ensures Ledger(v, l.supply[h := s]) == Extended(t, src, l, h)
  {
  }

  lemma TipIsAncestor(t: Tree, h: Hash)
    requires WellFormed(t) && h in t
    ensures IsAncestor(t, h, h)
  {
    assert Path(t, h)[|Path(t, h)| - 1] == h;
  }

  /** Recording the supply of a block off the chain keeps those of the chain. */
  lemma OffChainKeeps(t: Tree, first: map<Hash, int>, before: map<Hash, int>, after: map<Hash, int>, best: Hash,
                      hs: seq<Hash>, i: nat)
    requires WellFormed(t) && best in t && OffChain(t, best, hs) && i < |hs| && SameSupplies(t, first, before, best)
    requires after == before || (hs[i] in after && after == before[hs[i] := after[hs[i]]])
    ensures SameSupplies(t, first, after, best) && SupplyOf(after, best) == SupplyOf(before, best)
  {
    TipIsAncestor(t, best);
    forall x | IsAncestor(t, x, best) ensures SupplyOf(after, x) == SupplyOf(first, x) && (x in first ==> x in after) {
      assert SupplyOf(before, x) == SupplyOf(first, x);
      assert x != hs[i];
    }
  }

  /** The blocks of the collected list, taken from its end, lead up from `inner` to `h`; they
      have more trust than the best block, which is thus not one of them. */
  lemma LaterAt(t: Tree, inner: Hash, h: Hash, i: nat, best: Hash)
    requires WellFormed(t) && inner in t && h in t && IsAncestor(t, inner, h)
    requires i < |Branch(t, inner, h)| && best in t && t[inner].trust > t[best].trust
    ensures var hs, later := Branch(t, inner, h), BranchBack(t, inner, h);
            && |later| == |hs| && later[|later| - 1 - i] == hs[i] != best && hs[i] != inner
            && Reaches(t, hs, i + 1, hs[i], h) && IsAncestor(t, hs[i], h) && IsAncestor(t, inner, hs[i])
  {
    FromTheEnd(t, inner, h, i);
    BranchAt(t, inner, h, i);
    TrustAlongPath(t, inner, Branch(t, inner, h)[i]);
  }

  lemma FromTheEnd(t: Tree, inner: Hash, h: Hash, i: nat)
    requires WellFormed(t) && inner in t && h in t && IsAncestor(t, inner, h) && i < |Branch(t, inner, h)|
    ensures var hs, later := Branch(t, inner, h), BranchBack(t, inner, h);
            |later| == |hs| && later[|later| - 1 - i] == hs[i]
  {
    BranchReversed(t, inner, h);
    ReverseIs(BranchBack(t, inner, h), Branch(t, inner, h), i);
  }

  lemma ReverseIs(back: seq<Hash>, hs: seq<Hash>, i: nat)
    requires Reverse(back) == hs && i < |hs|
    ensures |back| == |hs| && back[|back| - 1 - i] == hs[i]
  {
  }

  lemma IntermediateLower(t: Tree, bar: int, h: Hash)
    requires WellFormed(t) && h in t && t[h].pprev.Some? && t[t[h].pprev.value].trust > bar
    ensures Intermediate(t, bar, h) == Intermediate(t, bar, t[h].pprev.value) != h
    ensures IsAncestor(t, Intermediate(t, bar, h), t[h].pprev.value)
  {
    IntermediateOnPath(t, bar, t[h].pprev.value);
  }

  function Distance(a: int, b: int): int {
    if a < b then b - a else a - b
  }

  function TrustOf(t: Tree, best: Option<Hash>): int {
    if best.Some? && best.value in t then t[best.value].trust else 0
  }

  /** The CBlockIndex AddToBlockIndex makes for a block. */
  function MakeIndex(t: Tree, b: Block, at: Location, blockTrust: nat): Index {
    if b.prev in t then Index(b, at, Some(b.prev), t[b.prev].height + 1, t[b.prev].trust + blockTrust)
    else Index(b, at, None, 0, blockTrust)
  }

  ghost predicate InFile(disk: map<DiskPos, Tx>, end: nat) {
    forall p :: p in disk ==> p.Pos? && p.tx < end
  }

  ghost predicate StoredTo(disk: map<DiskPos, Tx>, vtx: seq<Tx>, at: Location, k: nat)
    requires k <= |vtx|
  {
    k == 0 ||
    (StoredTo(disk, vtx, at, k - 1) && TxPos(at, vtx, k - 1) in disk && disk[TxPos(at, vtx, k - 1)] == vtx[k - 1])
  }

  lemma {:induction false} StoredToContains(disk: map<DiskPos, Tx>, disk': map<DiskPos, Tx>, vtx: seq<Tx>,
                                            at: Location, k: nat)
    requires k <= |vtx| && StoredTo(disk, vtx, at, k) && Contains(disk, disk')
    ensures StoredTo(disk', vtx, at, k)
  {
    if k > 0 {
      StoredToContains(disk, disk', vtx, at, k - 1);
    }
  }

  lemma StoreNext(disk: map<DiskPos, Tx>, vtx: seq<Tx>, at: Location, i: nat)
    requires i < |vtx| && vtx[i].size > 0 && StoredTo(disk, vtx, at, i) && InFile(disk, at.pos + TxOffset(vtx, i))
    ensures var disk' := disk[TxPos(at, vtx, i) := vtx[i]];
            && Contains(disk, disk') && StoredTo(disk', vtx, at, i + 1)
            && InFile(disk', at.pos + TxOffset(vtx, i + 1))
  {
    assert TxPos(at, vtx, i) !in disk;
    StoredToContains(disk, disk[TxPos(at, vtx, i) := vtx[i]], vtx, at, i);
  }

  lemma {:induction false} StoredAll(disk: map<DiskPos, Tx>, vtx: seq<Tx>, at: Location, k: nat)
    requires k <= |vtx| && StoredTo(disk, vtx, at, k)
    ensures forall i :: 0 <= i < k ==> TxPos(at, vtx, i) in disk && disk[TxPos(at, vtx, i)] == vtx[i]
  {
    if k > 0 {
      StoredAll(disk, vtx, at, k - 1);
    }
  }

  /** Writing the transactions of a block one after another. */
  method AppendTxs(disk0: map<DiskPos, Tx>, vtx: seq<Tx>, at: Location, end: nat) returns (disk: map<DiskPos, Tx>)
    requires InFile(disk0, end) && end <= at.pos && forall i :: 0 <= i < |vtx| ==> vtx[i].size > 0
    ensures Contains(disk0, disk) && InFile(disk, at.pos + TxOffset(vtx, |vtx|)) && Stored(disk, vtx, at)
  {
    disk := disk0;
    for i := 0 to |vtx|
      invariant Contains(disk0, disk) && InFile(disk, at.pos + TxOffset(vtx, i))
      invariant StoredTo(disk, vtx, at, i)
    {
      StoreNext(disk, vtx, at, i);
      disk := disk[TxPos(at, vtx, i) := vtx[i]];
    }
    StoredAll(disk, vtx, at, |vtx|);
  }
}
