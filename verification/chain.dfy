/** What index and money supply of a chain are: the fold of the blocks, and the value of the unspent
    outputs. Disconnecting, connecting and switching keep them so, because coinbases tell their heights
    and so no block that connects repeats a transaction id of its branch. */
module Chain {
  import opened Transactions
  import opened TxIndex
  import opened Blocks
  import opened Supply
  import opened BlockTree
  import opened Switching
  import opened Heights

  /** The index that connecting every block from the root (itself not connected) up to `h` gives. */
  function IndexAt(t: Tree, h: Hash): TxMap
    requires WellFormed(t) && h in t
    decreases t[h].height
  {
    match t[h].pprev
    case None => map[]
    case Some(p) => Connected(IndexAt(t, p), t[h].block, t[h].at)
  }

  ghost function SupplyAt(t: Tree, disk: map<DiskPos, Tx>, h: Hash): int
    requires WellFormed(t) && h in t
  {
    UnspentTotal(IndexAt(t, h), disk)
  }

  /** The coinbase tells the height of its block, except in the root. */
  ghost predicate RuleAt(t: Tree, h: Hash) {
    h in t && t[h].pprev.Some? ==> HeightRule(t[h].block, t[h].height)
  }

  ghost predicate HeightsTold(t: Tree) {
    forall h {:trigger RuleAt(t, h)} :: RuleAt(t, h)
  }

  ghost predicate StoredAt(t: Tree, disk: map<DiskPos, Tx>, h: Hash) {
    h in t ==> Stored(disk, t[h].block.vtx, t[h].at)
  }

  ghost predicate AllStored(t: Tree, disk: map<DiskPos, Tx>) {
    forall h {:trigger StoredAt(t, disk, h)} :: StoredAt(t, disk, h)
  }

  /** Every block up to `h` connects cleanly to what lies below it. */
  predicate CleanPath(t: Tree, h: Hash)
    requires WellFormed(t) && h in t
    decreases t[h].height
  {
    match t[h].pprev
    case None => true
    case Some(p) => CleanPath(t, p) && CheckBlock(t[h].block) && Clean(IndexAt(t, p), t[h].block, t[h].at)
  }

  /** The recorded money supply of every block up to `h` is the value of the outputs unspent there. */
  ghost predicate SupplyRight(t: Tree, disk: map<DiskPos, Tx>, supply: map<Hash, int>, h: Hash)
    requires WellFormed(t) && h in t
    decreases t[h].height
  {
    && h in supply && supply[h] == SupplyAt(t, disk, h)
    && (t[h].pprev.Some? ==> SupplyRight(t, disk, supply, t[h].pprev.value))
  }

  ghost predicate TreeOk(t: Tree, disk: map<DiskPos, Tx>) {
    WellFormed(t) && HeightsTold(t) && AllStored(t, disk)
  }

  /** Index and money supply describe the chain that ends in `h`. */
  ghost predicate Describes(t: Tree, disk: map<DiskPos, Tx>, l: Ledger, h: Hash) {
    WellFormed(t) && h in t && l.index == IndexAt(t, h) && CleanPath(t, h) && SupplyRight(t, disk, l.supply, h)
  }

  // ---------------------------------------------------------------- along a path

  lemma {:induction false} PathConsistent(t: Tree, src: Source, h: Hash)
    requires WellFormed(t) && h in t && CleanPath(t, h) && AllStored(t, src.disk)
    ensures Consistent(IndexAt(t, h), src.disk)
    decreases t[h].height
  {
    if t[h].pprev.Some? {
      var p, b := t[h].pprev.value, t[h].block;
      PathConsistent(t, src, p);
      assert StoredAt(t, src.disk, h);
      BlockValueTo(IndexAt(t, p), src, b.vtx, t[h].at, |b.vtx|);
    }
  }

  lemma {:induction false} PathSealed(t: Tree, disk: map<DiskPos, Tx>, h: Hash)
    requires TreeOk(t, disk) && h in t && CleanPath(t, h)
    ensures Sealed(IndexAt(t, h), disk, t[h].height)
    decreases t[h].height
  {
    if t[h].pprev.Some? {
      PathSealed(t, disk, t[h].pprev.value);
      SealedUp(t, disk, h, IndexAt(t, t[h].pprev.value));
    } else {
      NothingSealed(disk);
    }
  }

  lemma SealedUp(t: Tree, disk: map<DiskPos, Tx>, h: Hash, v: TxMap)
    requires TreeOk(t, disk) && h in t && t[h].pprev.Some? && Sealed(v, disk, t[t[h].pprev.value].height)
    requires CheckBlock(t[h].block) && Clean(v, t[h].block, t[h].at)
    ensures Sealed(Connected(v, t[h].block, t[h].at), disk, t[h].height)
  {
    InOrder(t, disk, h);
    BlockSealed(v, disk, t[h].block, t[h].at, t[t[h].pprev.value].height);
  }

  lemma InOrder(t: Tree, disk: map<DiskPos, Tx>, h: Hash)
    requires TreeOk(t, disk) && h in t && t[h].pprev.Some?
    ensures Stored(disk, t[h].block.vtx, t[h].at) && HeightRule(t[h].block, t[h].height)
    ensures t[h].height == t[t[h].pprev.value].height + 1
  {
    assert StoredAt(t, disk, h) && RuleAt(t, h);
  }

  lemma {:induction false} CleanBelow(t: Tree, a: Hash, h: Hash)
    requires WellFormed(t) && h in t && CleanPath(t, h) && IsAncestor(t, a, h)
    ensures a in t && CleanPath(t, a)
    decreases t[h].height
  {
    if a != h {
      CleanBelow(t, a, t[h].pprev.value);
    }
  }

  lemma {:induction false} SupplyBelow(t: Tree, disk: map<DiskPos, Tx>, supply: map<Hash, int>, a: Hash, h: Hash)
    requires WellFormed(t) && h in t && SupplyRight(t, disk, supply, h) && IsAncestor(t, a, h)
    ensures a in t && SupplyRight(t, disk, supply, a)
    decreases t[h].height
  {
    if a != h {
      SupplyBelow(t, disk, supply, a, t[h].pprev.value);
    }
  }

  /** Recording a supply for a block that is not on the path changes nothing. */
  lemma {:induction false} SupplyElsewhere(t: Tree, disk: map<DiskPos, Tx>, supply: map<Hash, int>, x: Hash, n: int,
                                           h: Hash)
    requires WellFormed(t) && h in t && SupplyRight(t, disk, supply, h) && !IsAncestor(t, x, h)
    ensures SupplyRight(t, disk, supply[x := n], h)
    decreases t[h].height
  {
    if t[h].pprev.Some? {
      assert Path(t, h) == Path(t, t[h].pprev.value) + [h];
      SupplyElsewhere(t, disk, supply, x, n, t[h].pprev.value);
    }
  }

  lemma {:induction false} SupplyAgrees(t: Tree, disk: map<DiskPos, Tx>, supply: map<Hash, int>,
                                        supply': map<Hash, int>, b: Hash, h: Hash)
    requires WellFormed(t) && h in t && b in t && SupplyRight(t, disk, supply, h)
    requires SameSupplies(t, supply, supply', b) && IsAncestor(t, h, b)
    ensures SupplyRight(t, disk, supply', h)
    decreases t[h].height
  {
    assert SupplyOf(supply', h) == SupplyOf(supply, h);
    if t[h].pprev.Some? {
      ParentIsAncestor(t, h, b);
      SupplyAgrees(t, disk, supply, supply', b, t[h].pprev.value);
    }
  }

  lemma ParentIsAncestor(t: Tree, h: Hash, b: Hash)
    requires WellFormed(t) && h in t && b in t && IsAncestor(t, h, b) && t[h].pprev.Some?
    ensures IsAncestor(t, t[h].pprev.value, b)
  {
    AncestorPath(t, h, b);
    ParentOnPath(t, b, t[h].height);
  }

  // ---------------------------------------------------------------- one block up, one block down

  /** Connecting one more block: the index, the cleanness and the supply stay right. */
  lemma {:induction false} ConnectsUp(t: Tree, src: Source, g: Guards, bestSupply: int, l: Ledger, h: Hash)
    requires TreeOk(t, src.disk) && NoCollision(src.disk) && h in t && t[h].pprev.Some?
    requires Describes(t, src.disk, l, t[h].pprev.value) && Accepts(t, src, g, bestSupply, l, h)
    ensures Describes(t, src.disk, Extended(t, src, l, h), h)
  {
    var p, b := t[h].pprev.value, t[h].block;
    assert SupplyRight(t, src.disk, l.supply, p);
    FreshOnPath(t, src, h, ContextOf(t, l.supply, bestSupply, h), g.checks(h));
    SupplyMatchesUnspent(l.index, src, b, ContextOf(t, l.supply, bestSupply, h), g.checks(h));
    SupplyUp(t, src.disk, l.supply, h);
  }

  /** A block that connects to what lies below it connects cleanly, with ids that are new there. */
  lemma {:induction false} FreshOnPath(t: Tree, src: Source, h: Hash, cx: Context, checks: Checks)
    requires TreeOk(t, src.disk) && NoCollision(src.disk) && h in t && t[h].pprev.Some?
      && CleanPath(t, t[h].pprev.value)
    requires ConnectOk(IndexAt(t, t[h].pprev.value), src, t[h].block, cx, checks) && cx.at == t[h].at
    ensures Ids(t[h].block.vtx) !! IndexAt(t, t[h].pprev.value).Keys && CleanPath(t, h)
    ensures Consistent(IndexAt(t, t[h].pprev.value), src.disk) && Stored(src.disk, t[h].block.vtx, t[h].at)
  {
    var p := t[h].pprev.value;
    PathConsistent(t, src, p);
    PathSealed(t, src.disk, p);
    InOrder(t, src.disk, h);
    FreshHere(IndexAt(t, p), src, t[h].block, cx, checks, t[p].height);
  }

  lemma FreshHere(v: TxMap, src: Source, b: Block, cx: Context, checks: Checks, n: nat)
    requires ConnectOk(v, src, b, cx, checks) && Stored(src.disk, b.vtx, cx.at) && HeightRule(b, n + 1)
    requires Sealed(v, src.disk, n) && NoCollision(src.disk)
    ensures Ids(b.vtx) !! v.Keys && CheckBlock(b) && Clean(v, b, cx.at)
  {
    HeightRuleKeepsIdsFresh(v, src, b, cx, checks, n);
    ConnectOkClean(v, src, b, cx, checks);
  }

  /** A block's supply joins those of the blocks below it. */
  lemma SupplyUp(t: Tree, disk: map<DiskPos, Tx>, supply: map<Hash, int>, h: Hash)
    requires WellFormed(t) && h in t && t[h].pprev.Some? && SupplyRight(t, disk, supply, t[h].pprev.value)
    ensures SupplyRight(t, disk, supply[h := SupplyAt(t, disk, h)], h)
  {
    NotBelowItself(t, h);
    SupplyElsewhere(t, disk, supply, h, SupplyAt(t, disk, h), t[h].pprev.value);
  }

  lemma NotBelowItself(t: Tree, h: Hash)
    requires WellFormed(t) && h in t && t[h].pprev.Some?
    ensures !IsAncestor(t, h, t[h].pprev.value)
  {
    if IsAncestor(t, h, t[h].pprev.value) {
      AncestorPath(t, h, t[h].pprev.value);
    }
  }

  /** Disconnecting the tip of a cleanly connected path leads to the index one block below. */
  lemma StepsDown(t: Tree, h: Hash)
    requires WellFormed(t) && h in t && t[h].pprev.Some? && CleanPath(t, h)
    ensures DisconnectOk(IndexAt(t, h), t[h].block)
    ensures Disconnected(IndexAt(t, h), t[h].block) == IndexAt(t, t[h].pprev.value)
  {
    CleanUndo(IndexAt(t, t[h].pprev.value), t[h].block, t[h].at);
  }

  // ---------------------------------------------------------------- a branch up, a branch down

  /** Each block from `b` down to, but without, `f` can be read. */
  predicate ReadableDown(t: Tree, g: Guards, b: Hash, f: Hash)
    requires WellFormed(t) && b in t
    decreases t[b].height
  {
    b == f || t[b].pprev.None? || (g.readable(b) && ReadableDown(t, g, t[b].pprev.value, f))
  }

  /** Disconnecting a cleanly connected branch restores the index of the fork, and fails only where a
      block cannot be read. */
  lemma {:induction false} UndoDescribes(t: Tree, g: Guards, b: Hash, f: Hash)
    requires WellFormed(t) && b in t && IsAncestor(t, f, b) && CleanPath(t, b)
    ensures f in t && UndoneTo(t, IndexAt(t, b), b, f) == IndexAt(t, f)
    ensures UndoOk(t, g, IndexAt(t, b), b, f) <==> ReadableDown(t, g, b, f)
    decreases t[b].height
  {
    AncestorPath(t, f, b);
    if b != f {
      StepsDown(t, b);
      UndoDescribes(t, g, t[b].pprev.value, f);
    }
  }

  /** Connecting a branch that passes, from what describes its foot. */
  lemma {:induction false} ConnectDescribes(t: Tree, src: Source, g: Guards, bestSupply: int, l: Ledger, f: Hash,
                                            velocity: bool, h: Hash)
    requires TreeOk(t, src.disk) && NoCollision(src.disk) && h in t && IsAncestor(t, f, h)
      && Describes(t, src.disk, l, f)
    requires BranchPasses(t, src, g, bestSupply, l, f, velocity, h)
    ensures Describes(t, src.disk, LedgerFrom(t, src, l, f, h), h)
    decreases t[h].height
  {
    if h != f && t[h].pprev.Some? {
      var p := t[h].pprev.value;
      ConnectDescribes(t, src, g, bestSupply, l, f, velocity, p);
      ConnectsUp(t, src, g, bestSupply, LedgerFrom(t, src, l, f, p), h);
    }
  }

  /** A successful Reorganize leads from what describes one chain to what describes the other. */
  lemma {:induction false} SwitchDescribes(t: Tree, src: Source, g: Guards, l: Ledger, best: Hash, h: Hash)
    requires TreeOk(t, src.disk) && NoCollision(src.disk) && best in t && h in t && Describes(t, src.disk, l, best)
    requires SwitchOk(t, src, g, l, best, h)
    ensures Describes(t, src.disk, Switched(t, src, l, best, h), h)
  {
    var f := ForkOf(t, best, h).value;
    UndoDescribes(t, g, best, f);
    CleanBelow(t, f, best);
    SupplyBelow(t, src.disk, l.supply, f, best);
    ConnectDescribes(t, src, g, SupplyOf(l.supply, best), AtFork(t, l, best, f), f, true, h);
  }

  /** So does SetBestChain, up to the block it reaches. */
  lemma {:induction false} TakeoverDescribes(t: Tree, src: Source, g: Guards, best: Option<Hash>, l: Ledger, h: Hash)
    requires TreeOk(t, src.disk) && NoCollision(src.disk) && h in t
    requires best.None? ==> Describes(t, src.disk, l, h)
    requires best.Some? ==>
      best.value in t && t[h].trust > t[best.value].trust && t[h].pprev.Some? && Describes(t, src.disk, l, best.value)
    requires TakesOver(t, src, g, best, l, h)
    ensures Describes(t, src.disk, LedgerAfter(t, src, g, best, l, h), Reached(t, src, g, best, l, h))
  {
    if best.Some? {
      var b := best.value;
      if t[h].pprev == best {
        ConnectsUp(t, src, g, SupplyOf(l.supply, b), l, h);
      } else {
        FollowDescribes(t, src, g, b, l, h);
      }
    }
  }

  lemma {:induction false} FollowDescribes(t: Tree, src: Source, g: Guards, b: Hash, l: Ledger, h: Hash)
    requires TreeOk(t, src.disk) && NoCollision(src.disk) && h in t && b in t && t[h].trust > t[b].trust
      && Describes(t, src.disk, l, b)
    requires t[h].pprev != Some(b) && SwitchOk(t, src, g, l, b, Intermediate(t, t[b].trust, h))
    ensures Describes(t, src.disk, LedgerAfter(t, src, g, Some(b), l, h), Reached(t, src, g, Some(b), l, h))
  {
    var inner, bs := Intermediate(t, t[b].trust, h), SupplyOf(l.supply, b);
    var s := Switched(t, src, l, b, inner);
    IntermediateOnPath(t, t[b].trust, h);
    SwitchDescribes(t, src, g, l, b, inner);
    var pass := x => Passes(t, src, g, bs, s, inner, false, x);
    JudgedUp(pass, t, src, g, bs, s, inner, false, h);
    FarthestIsAncestor(pass, t, inner, h);
    var reached := FarthestBy(pass, t, inner, h);
    JudgedUp(pass, t, src, g, bs, s, inner, false, reached);
    ConnectDescribes(t, src, g, bs, s, inner, false, reached);
  }

  // ---------------------------------------------------------------- growing tree, growing files

  ghost predicate Extends(t: Tree, t': Tree) {
    forall x :: x in t ==> x in t' && t'[x] == t[x]
  }

  lemma {:induction false} BranchExtends(t: Tree, t': Tree, h: Hash)
    requires WellFormed(t) && WellFormed(t') && Extends(t, t') && h in t
    ensures Path(t', h) == Path(t, h) && IndexAt(t', h) == IndexAt(t, h)
    ensures CleanPath(t', h) == CleanPath(t, h)
    decreases t[h].height
  {
    PathExtends(t, t', h);
    if t[h].pprev.Some? {
      BranchExtends(t, t', t[h].pprev.value);
    }
  }

  lemma {:induction false} SupplyExtends(t: Tree, t': Tree, disk: map<DiskPos, Tx>, supply: map<Hash, int>, h: Hash)
    requires WellFormed(t) && WellFormed(t') && Extends(t, t') && h in t && SupplyRight(t, disk, supply, h)
    ensures SupplyRight(t', disk, supply, h)
    decreases t[h].height
  {
    BranchExtends(t, t', h);
    if t[h].pprev.Some? {
      SupplyExtends(t, t', disk, supply, t[h].pprev.value);
    }
  }

  /** A new record: on top of a known block, or the first one. */
  ghost predicate NewRecord(t: Tree, h: Hash, x: Index) {
    && h !in t
    && match x.pprev
       case None => x.height == 0
       case Some(p) => p in t && x.height == t[p].height + 1 && t[p].trust <= x.trust
  }

  /** Its block is in the file and, unless it is the first one, follows the height rule. */
  ghost predicate GoodRecord(disk: map<DiskPos, Tx>, x: Index) {
    Stored(disk, x.block.vtx, x.at) && (x.pprev.Some? ==> HeightRule(x.block, x.height))
  }

  lemma WellFormedGrows(t: Tree, h: Hash, x: Index)
    requires WellFormed(t) && NewRecord(t, h, x)
    ensures WellFormed(t[h := x]) && Extends(t, t[h := x])
  {
  }

  lemma TreeGrows(t: Tree, disk: map<DiskPos, Tx>, h: Hash, x: Index)
    requires TreeOk(t, disk) && NewRecord(t, h, x) && GoodRecord(disk, x)
    ensures TreeOk(t[h := x], disk) && Extends(t, t[h := x])
  {
    WellFormedGrows(t, h, x);
    var t' := t[h := x];
    forall y ensures RuleAt(t', y) {
      assert RuleAt(t, y);
    }
    forall y ensures StoredAt(t', disk, y) {
      assert StoredAt(t, disk, y);
    }
  }

  /** The description of the main chain survives a new record, whose own supply starts at 0. */
  lemma {:induction false} DescribesGrows(t: Tree, disk: map<DiskPos, Tx>, l: Ledger, best: Hash, h: Hash, x: Index)
    requires WellFormed(t) && NewRecord(t, h, x) && Describes(t, disk, l, best)
    ensures Describes(t[h := x], disk, Ledger(l.index, l.supply[h := 0]), best)
  {
    var t' := t[h := x];
    WellFormedGrows(t, h, x);
    BranchExtends(t, t', best);
    SupplyExtends(t, t', disk, l.supply, best);
    NewIsElsewhere(t, h, best);
    SupplyElsewhere(t', disk, l.supply, h, 0, best);
  }

  lemma NewIsElsewhere(t: Tree, h: Hash, best: Hash)
    requires WellFormed(t) && best in t && h !in t
    ensures h !in Path(t, best)
  {
  }

  /** The genesis block alone: an empty index and no supply. */
  lemma FirstDescribes(t: Tree, disk: map<DiskPos, Tx>, l: Ledger, h: Hash)
    requires WellFormed(t) && h in t && t[h].pprev.None? && l.index == map[] && h in l.supply && l.supply[h] == 0
    ensures Describes(t, disk, l, h)
  {
    EmptyTotal(disk);
  }

  ghost predicate Contains(disk: map<DiskPos, Tx>, disk': map<DiskPos, Tx>) {
    forall p :: p in disk ==> p in disk' && disk'[p] == disk[p]
  }

  lemma ValuesStable(v: TxMap, disk: map<DiskPos, Tx>, disk': map<DiskPos, Tx>)
    requires Consistent(v, disk) && Contains(disk, disk')
    ensures UnspentTotal(v, disk') == UnspentTotal(v, disk)
  {
    forall h | h in v ensures FreeValue(v[h], disk') == FreeValue(v[h], disk) {
      assert v[h].pos in disk;
    }
    assert Values(v, disk') == Values(v, disk);
  }

  lemma {:induction false} SupplyStable(t: Tree, src: Source, disk': map<DiskPos, Tx>, supply: map<Hash, int>, h: Hash)
    requires TreeOk(t, src.disk) && h in t && CleanPath(t, h) && SupplyRight(t, src.disk, supply, h)
    requires Contains(src.disk, disk')
    ensures SupplyRight(t, disk', supply, h)
    decreases t[h].height
  {
    PathConsistent(t, src, h);
    ValuesStable(IndexAt(t, h), src.disk, disk');
    if t[h].pprev.Some? {
      SupplyStable(t, src, disk', supply, t[h].pprev.value);
    }
  }

  lemma StoredStable(t: Tree, disk: map<DiskPos, Tx>, disk': map<DiskPos, Tx>)
    requires TreeOk(t, disk) && Contains(disk, disk')
    ensures TreeOk(t, disk')
  {
    forall y ensures StoredAt(t, disk', y) {
      assert StoredAt(t, disk, y);
    }
  }
}
