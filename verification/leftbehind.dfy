/** A run after which the links do not reach the best block: a branch is refused first, and when the next
    block on it arrives the branch takes over, but that block itself does not connect, because its coinbase
    claims more than the reward. Every block is one that AcceptBlock takes. */
module LeftBehind {
  import opened Transactions
  import opened TxIndex
  import opened Blocks
  import opened BlockTree
  import opened Links
  import opened Switching
  import opened Heights
  import opened Chain
  import opened MainChain

  // ---------------------------------------------------------------- blocks with a coinbase alone

  function Coinbase(id: Hash, script: seq<int>, coins: nat): Tx {
    Tx(id, 0, [OutPoint(0, 0xffff_ffff)], script, [TxOut(coins * COIN, [1])], 100)
  }

  function CoinbaseBlock(hash: Hash, prev: Hash, script: seq<int>, coins: nat): Block {
    Block(hash, prev, [Coinbase(hash + 100, script, coins)])
  }

  const G: Hash := 1
  const A: Hash := 2
  const B1: Hash := 3
  const B2: Hash := 4

  /** The genesis block; two blocks at height 1; a block at height 2 that claims one coin too many. */
  function BlockG(): Block { CoinbaseBlock(G, 0, [200, 0], 1) }
  function BlockA(): Block { CoinbaseBlock(A, G, [81, 0], 1) }
  function BlockB1(): Block { CoinbaseBlock(B1, G, [81, 1], 1) }
  function BlockB2(): Block { CoinbaseBlock(B2, B1, [82, 0], 140001) }

  /** Each is fit for AcceptBlock at its height. */
  lemma BlocksFit()
    ensures CheckBlock(BlockA()) && CheckBlock(BlockB1()) && CheckBlock(BlockB2()) && CheckBlock(BlockG())
    ensures HeightRule(BlockA(), 1) && HeightRule(BlockB1(), 1) && HeightRule(BlockB2(), 2)
  {
    OneCoinbaseFits(BlockG());
    OneCoinbaseFits(BlockA());
    OneCoinbaseFits(BlockB1());
    OneCoinbaseFits(BlockB2());
    SmallHeight([81, 0], 1);
    SmallHeight([81, 1], 1);
    SmallHeight([82, 0], 2);
  }

  lemma OneCoinbaseFits(b: Block)
    requires |b.vtx| == 1 && b.vtx[0].IsCoinBase() && |b.vtx[0].vout| == 1 && 2 <= |b.vtx[0].script| <= 100
    requires MoneyRange(b.vtx[0].vout[0].value)
    ensures CheckBlock(b)
  {
    OneOutput(b.vtx[0].vout);
  }

  lemma Connects(v: TxMap, src: Source, hash: Hash, prev: Hash, script: seq<int>, cx: Context)
    requires cx.bestSupply <= MAX_SINGLE_TX && |script| == 2
    ensures ConnectOk(v, src, CoinbaseBlock(hash, prev, script, 1), cx, AllFine())
  {
    CoinbaseConnects(v, src, CoinbaseBlock(hash, prev, script, 1), Coinbase(hash + 100, script, 1), cx);
  }

  lemma ClaimsTooMuch(v: TxMap, src: Source, cx: Context)
    requires cx.height == 2
    ensures !ConnectOk(v, src, BlockB2(), cx, AllFine())
  {
    CoinbaseConnects(v, src, BlockB2(), BlockB2().vtx[0], cx);
  }

  lemma CoinbaseUndone(src: Source, hash: Hash, prev: Hash, script: seq<int>, cx: Context)
    requires cx.bestSupply <= MAX_SINGLE_TX && |script| == 2
    ensures var b := CoinbaseBlock(hash, prev, script, 1);
            var w := Connected(map[], b, cx.at);
            DisconnectOk(w, b) && Disconnected(w, b) == map[]
  {
    Connects(map[], src, hash, prev, script, cx);
    DisconnectUndoesConnect(map[], src, CoinbaseBlock(hash, prev, script, 1), cx, AllFine());
  }

  // ---------------------------------------------------------------- the tree

  /** All outside tests pass, but for the chain quality if `quality` is not set. */
  function Outside(quality: bool): Guards {
    Guards(true, _ => true, _ => AllFine(), _ => true, false, 0, quality, true)
  }

  predicate HasG(t: Tree) {
    G in t && t[G] == Index(BlockG(), t[G].at, None, 0, 1)
  }

  predicate HasA(t: Tree) {
    A in t && t[A] == Index(BlockA(), t[A].at, Some(G), 1, 2)
  }

  predicate HasB1(t: Tree) {
    B1 in t && t[B1] == Index(BlockB1(), t[B1].at, Some(G), 1, 3)
  }

  predicate HasB2(t: Tree) {
    B2 in t && t[B2] == Index(BlockB2(), t[B2].at, Some(B1), 2, 4)
  }

  predicate One(t: Tree) {
    t.Keys == {G} && HasG(t)
  }

  predicate Two(t: Tree) {
    t.Keys == {G, A} && HasG(t) && HasA(t)
  }

  predicate Three(t: Tree) {
    t.Keys == {G, A, B1} && HasG(t) && HasA(t) && HasB1(t)
  }

  predicate Four(t: Tree) {
    t.Keys == {G, A, B1, B2} && HasG(t) && HasA(t) && HasB1(t) && HasB2(t)
  }

  lemma Paths(t: Tree)
    requires Four(t)
    ensures WellFormed(t)
    ensures Path(t, G) == [G] && Path(t, A) == [G, A] && Path(t, B1) == [G, B1] && Path(t, B2) == [G, B1, B2]
  {
    assert WellFormed(t);
    assert Path(t, G) == [G];
    assert Path(t, A) == Path(t, G) + [A];
    assert Path(t, B1) == Path(t, G) + [B1];
    assert Path(t, B2) == Path(t, B1) + [B2];
  }

  lemma ForkIsGenesis(t: Tree)
    requires Four(t)
    ensures WellFormed(t) && ForkOf(t, A, B1) == Some(G)
  {
    Paths(t);
    assert IsFork(t, G, A, B1);
    ForkOfIs(t, G, A, B1);
  }

  // ---------------------------------------------------------------- the outcome of the last block

  /** The ledger when `a` is the best block. */
  ghost predicate AfterA(t: Tree, l: Ledger) {
    && A in t && l.index == Connected(map[], BlockA(), t[A].at)
    && SupplyOf(l.supply, A) <= MAX_SINGLE_TX
  }

  /** `b` and `x` sit on `f`, `h` on `x`, and `x` has more trust than `b`. (Folded, as in Judges.) */
  ghost predicate Diamond(t: Tree, b: Hash, f: Hash, x: Hash, h: Hash) {
    forall y {:trigger Ask(y)} :: Ask(y) ==>
      && WellFormed(t) && b in t && x in t && h in t && f in t && t[h].pprev == Some(x) && t[x].pprev == Some(f)
      && t[x].trust > t[b].trust >= t[f].trust && x != b && x != f && t[x].height == t[b].height && h != x
      && ForkOf(t, b, x) == Some(f)
  }

  /** The branch to `x` can take over from `b`, but `h` connects to nothing. */
  ghost predicate OnlyTo(t: Tree, src: Source, g: Guards, l: Ledger, b: Hash, f: Hash, x: Hash, h: Hash) {
    forall y {:trigger Ask(y)} :: Ask(y) ==>
      && g.chainQualityOk && g.branchSupplyOk && g.readable(x) && g.velocityOk(x)
      && WellFormed(t) && b in t && x in t && h in t && UndoOk(t, g, l.index, b, f)
      && Accepts(t, src, g, SupplyOf(l.supply, b), AtFork(t, l, b, f), x)
      && forall s :: !Accepts(t, src, g, SupplyOf(l.supply, b), s, h)
  }

  /** In any such tree the takeover succeeds, and reaches `x` alone. */
  lemma {:induction false} TakesOverOnlyTo(t: Tree, src: Source, g: Guards, b: Hash, l: Ledger, f: Hash, x: Hash,
                                           h: Hash)
    requires WellFormed(t) && b in t && h in t && Diamond(t, b, f, x, h) && OnlyTo(t, src, g, l, b, f, x, h)
    ensures TakesOver(t, src, g, Some(b), l, h) && Reached(t, src, g, Some(b), l, h) == x
    ensures Intermediate(t, t[b].trust, h) == x
  {
    assert Ask(h);
    OneBlockPasses(t, src, g, SupplyOf(l.supply, b), AtFork(t, l, b, f), f, x);
    assert SwitchAt(t, src, g, l, f, b, x);
    assert Intermediate(t, t[b].trust, x) == x;
    assert Intermediate(t, t[b].trust, h) == x;
    var s, bs := Switched(t, src, l, b, x), SupplyOf(l.supply, b);
    assert LedgerFrom(t, src, s, x, x) == s;
    assert !Passes(t, src, g, bs, s, x, false, h);
    assert Farthest(t, src, g, bs, s, x, false, x) == x;
  }

  lemma {:induction false} OneBlockPasses(t: Tree, src: Source, g: Guards, bs: int, l: Ledger, f: Hash, h: Hash)
    requires WellFormed(t) && h in t && f in t && h != f && t[h].pprev == Some(f)
    requires g.readable(h) && g.velocityOk(h) && Accepts(t, src, g, bs, l, h)
    ensures BranchPasses(t, src, g, bs, l, f, true, h)
  {
    assert LedgerFrom(t, src, l, f, f) == l;
    assert BranchPasses(t, src, g, bs, l, f, true, f);
  }

  lemma LastTakesOver(t: Tree, src: Source, l: Ledger)
    requires Four(t) && AfterA(t, l)
    ensures WellFormed(t) && TakesOver(t, src, Outside(true), Some(A), l, B2)
    ensures Reached(t, src, Outside(true), Some(A), l, B2) == B1 && Intermediate(t, t[A].trust, B2) == B1
  {
    Paths(t);
    FourIsDiamond(t);
    LastIsRefused(t, src, l);
    TakesOverOnlyTo(t, src, Outside(true), A, l, G, B1, B2);
  }

  lemma FourIsDiamond(t: Tree)
    requires Four(t)
    ensures Diamond(t, A, G, B1, B2)
  {
    ForkIsGenesis(t);
  }

  lemma LastIsRefused(t: Tree, src: Source, l: Ledger)
    requires Four(t) && AfterA(t, l) && WellFormed(t)
    ensures OnlyTo(t, src, Outside(true), l, A, G, B1, B2)
  {
    var g, bs := Outside(true), SupplyOf(l.supply, A);
    UndoA(t, src, l);
    AcceptB1(t, src, bs, AtFork(t, l, A, G));
    forall s ensures !Accepts(t, src, g, bs, s, B2) {
      ClaimsTooMuch(s.index, src, ContextOf(t, s.supply, bs, B2));
    }
  }

  lemma UndoA(t: Tree, src: Source, l: Ledger)
    requires Four(t) && AfterA(t, l) && WellFormed(t)
    ensures UndoOk(t, Outside(true), l.index, A, G) && UndoneTo(t, l.index, A, G) == map[]
  {
    CoinbaseUndone(src, A, G, [81, 0], Context(t[A].at, 1, 0, 0));
    assert UndoOk(t, Outside(true), map[], G, G) && UndoneTo(t, map[], G, G) == map[];
  }

  lemma AcceptB1(t: Tree, src: Source, bs: int, s: Ledger)
    requires Four(t) && bs <= MAX_SINGLE_TX
    ensures Accepts(t, src, Outside(true), bs, s, B1)
  {
    Connects(s.index, src, B1, G, [81, 1], ContextOf(t, s.supply, bs, B1));
  }

  // ---------------------------------------------------------------- the run

  lemma AWins(t: Tree, src: Source, l: Ledger, at: Location)
    requires One(t) && SupplyOf(l.supply, G) == 0
    ensures Two(t[A := MakeIndex(t, BlockA(), at, 1)])
    ensures Wins(t, src, Outside(true), Some(G), l, A, MakeIndex(t, BlockA(), at, 1))
  {
    var t', l' := t[A := MakeIndex(t, BlockA(), at, 1)], NewLedger(l, A);
    assert Two(t') && WellFormed(t');
    Connects(l'.index, src, A, G, [81, 0], ContextOf(t', l'.supply, 0, A));
    assert Accepts(t', src, Outside(true), 0, l', A);
  }

  /** A coinbase adds its value to the supply. */
  lemma AfterAIs(t: Tree, src: Source, l: Ledger)
    requires Two(t) && WellFormed(t) && l.index == map[] && SupplyOf(l.supply, G) == 0
    ensures AfterA(t, LedgerAfter(t, src, Outside(true), Some(G), l, A))
  {
    var b, at := BlockA(), t[A].at;
    var tx := b.vtx[0];
    OneOutput(tx.vout);
    var start := After(l.index, src, b.vtx, at, 0);
    assert After(l.index, src, b.vtx, at, 1) == Step(start, src, tx, TxPos(at, b.vtx, 0));
    assert Gain(After(l.index, src, b.vtx, at, 1)) == COIN;
  }

  lemma B1Loses(t: Tree, src: Source, l: Ledger, at: Location)
    requires Two(t)
    ensures Three(t[B1 := MakeIndex(t, BlockB1(), at, 2)])
    ensures !Wins(t, src, Outside(false), Some(A), l, B1, MakeIndex(t, BlockB1(), at, 2))
  {
    assert t[B1 := MakeIndex(t, BlockB1(), at, 2)][A] == t[A];
  }

  lemma B2Wins(t: Tree, src: Source, l: Ledger, at: Location)
    requires Three(t) && AfterA(t, l)
    ensures var x := MakeIndex(t, BlockB2(), at, 1);
            var t' := t[B2 := x];
            && Four(t') && WellFormed(t') && Wins(t, src, Outside(true), Some(A), l, B2, x)
            && Reached(t', src, Outside(true), Some(A), NewLedger(l, B2), B2) == B1
  {
    var t' := t[B2 := MakeIndex(t, BlockB2(), at, 1)];
    assert Four(t') && t'[A] == t[A];
    LastTakesOver(t', src, NewLedger(l, B2));
  }

  /** Nothing was missing below the genesis block. */
  lemma NothingMissing(t: Tree, next: map<Hash, Hash>)
    requires Four(t)
    ensures WellFormed(t) && Unbroken(t, Some(A), next, B2)
  {
    Paths(t);
    ForkIsGenesis(t);
    assert Intermediate(t, t[A].trust, B1) == B1;
    assert Intermediate(t, t[A].trust, B2) == B1;
  }

  /** What the methods of the run require and keep. */
  ghost predicate Ready(s: ChainState)
    reads s, s.db
  {
    s.Valid() && TreeOk(s.tree, s.src.disk) && InFile(s.src.disk, s.fileEnd)
  }

  method AddG(s: ChainState)
    requires s.Valid() && InFile(s.src.disk, s.fileEnd) && s.tree == map[] && s.best == None && s.genesisHash == G
    modifies s, s.db
    ensures Ready(s) && One(s.tree) && s.best == Some(G) && s.db.committed == map[] && SupplyOf(s.supply, G) == 0
  {
    var r;
    ghost var at;
    r, at := s.LoadGenesis(BlockG(), 1, Outside(true));
  }

  method AddA(s: ChainState)
    requires Ready(s) && One(s.tree) && s.best == Some(G) && s.db.committed == map[] && SupplyOf(s.supply, G) == 0
    modifies s, s.db
    ensures Ready(s) && Two(s.tree) && s.best == Some(A) && AfterA(s.tree, s.Books())
  {
    ghost var t, l := s.tree, s.Books();
    BlocksFit();
    var r;
    ghost var at, tip;
    r, at, tip := s.AcceptBlock(BlockA(), 1, Outside(true), true);
    AWins(t, s.src, l, at);
    AfterAIs(s.tree, s.src, NewLedger(l, A));
  }

  method AddB1(s: ChainState)
    requires Ready(s) && Two(s.tree) && s.best == Some(A) && AfterA(s.tree, s.Books())
    modifies s, s.db
    ensures Ready(s) && Three(s.tree) && s.best == Some(A) && AfterA(s.tree, s.Books())
  {
    ghost var t, l := s.tree, s.Books();
    BlocksFit();
    var r;
    ghost var at, tip;
    r, at, tip := s.AcceptBlock(BlockB1(), 2, Outside(false), true);
    B1Loses(t, s.src, l, at);
    StillAfterA(s.tree, t, NewLedger(l, B1), s.Books());
  }

  lemma StillAfterA(t: Tree, t0: Tree, l: Ledger, after: Ledger)
    requires AfterA(t0, l) && WellFormed(t) && A in t && t[A] == t0[A] && Stayed(t, l, Some(A), after)
    ensures AfterA(t, after)
  {
    TipIsAncestor(t, A);
  }

  /** The block is taken, and becomes the best one, without ever having been connected. */
  method AddB2(s: ChainState)
    requires Ready(s) && Three(s.tree) && s.best == Some(A) && AfterA(s.tree, s.Books())
    modifies s, s.db
    ensures Ready(s) && Four(s.tree) && s.best == Some(B2) && WellFormed(s.tree) && LinksAlong(s.tree, s.next, B1)
    ensures !s.Whole()
  {
    ghost var t, l, links := s.tree, s.Books(), s.next;
    BlocksFit();
    var r;
    ghost var at, tip;
    r, at, tip := s.AcceptBlock(BlockB2(), 1, Outside(true), true);
    B2Wins(t, s.src, l, at);
    NothingMissing(s.tree, links);
  }

  /** After these four blocks the best block is `b2`, but its ancestor `b1`, where the links end, does not
      count as in the main chain. */
  method Run() returns (s: ChainState)
    ensures fresh(s) && fresh(s.db) && s.Valid() && s.best == Some(B2) && B2 in s.tree
    ensures IsAncestor(s.tree, B1, B2) && !IsInMainChain(s.next, B2, B1) && !s.Whole()
  {
    s := new ChainState(G);
    AddG(s);
    AddA(s);
    AddB1(s);
    AddB2(s);
    Paths(s.tree);
    assert B1 in Path(s.tree, B2);
  }
}
