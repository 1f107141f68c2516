/** What adding blocks comes to (AcceptBlock and AddToBlockIndex in src/main.cpp): when a block becomes the best one,
    and how much money a chain can hold (GetProofOfWorkReward and GetProofOfStakeReward in src/blockparams.cpp). */
module ChainLaws {
  import opened Transactions
  import opened TxIndex
  import opened Blocks
  import opened Supply
  import opened Heights
  import opened BlockTree
  import opened Links
  import opened Switching
  import opened Chain
  import opened MainChain
  import opened SwitchLaws

  // ---------------------------------------------------------------- when a block becomes the best one

  /** A block is refused exactly if it is known, its predecessor is not, one of the other rules fails, or its
      coinbase does not tell the height above its predecessor's. */
  lemma RefusedExactly(t: Tree, b: Block, rulesOk: bool)
    ensures Refused(t, b, rulesOk) <==>
      || b.hash in t || b.prev !in t || !rulesOk
      || b.vtx == [] || !TellsHeight(b.vtx[0].script, t[b.prev].height + 1)
  {
  }

  /** The tree with the block on top of its predecessor, one higher and with its own trust added. */
  function Grown(t: Tree, b: Block, at: Location, blockTrust: nat): Tree
    requires b.prev in t
  {
    t[b.hash := Index(b, at, Some(b.prev), t[b.prev].height + 1, t[b.prev].trust + blockTrust)]
  }

  /** The block connects to the best one, or the first block of its branch with more trust than the best one can be
      reorganized to. */
  ghost predicate Overtakes(t: Tree, src: Source, g: Guards, best: Hash, h: Hash)
    requires WellFormed(t) && best in t && h in t
  {
    if t[h].pprev == Some(best) then ConnectsToOwn(t, src, g, best, h)
    else exists r :: FirstBeyond(t, t[best].trust, r, h) && Needs(t, src, g, best, r)
  }

  /** Where index and supplies describe the best chain, a block becomes the best one exactly if it is new, its stake
      modifier can be computed, it has more trust than the best one, and it overtakes. */
  lemma WinsExactly(t: Tree, src: Source, g: Guards, best: Hash, l: Ledger, b: Block, at: Location, blockTrust: nat)
    requires TreeOk(t, src.disk) && NoCollision(src.disk) && best in t && Describes(t, src.disk, l, best)
    requires b.prev in t && Stored(src.disk, b.vtx, at) && HeightRule(b, t[b.prev].height + 1)
    ensures Wins(t, src, g, Some(best), l, b.hash, MakeIndex(t, b, at, blockTrust)) <==>
      && b.hash !in t && g.modifierOk && t[b.prev].trust + blockTrust > t[best].trust
      && WellFormed(Grown(t, b, at, blockTrust)) && best in Grown(t, b, at, blockTrust)
      && Overtakes(Grown(t, b, at, blockTrust), src, g, best, b.hash)
    ensures b.hash !in t ==> WellFormed(Grown(t, b, at, blockTrust)) && best in Grown(t, b, at, blockTrust)
  {
    var x, h, t' := MakeIndex(t, b, at, blockTrust), b.hash, Grown(t, b, at, blockTrust);
    if h !in t {
      TreeGrows(t, src.disk, h, x);
      DescribesGrows(t, src.disk, l, best, h, x);
      if t'[h].trust > t'[best].trust {
        OvertakesIs(t', src, g, NewLedger(l, h), best, h);
      }
    }
  }

  lemma OvertakesIs(t: Tree, src: Source, g: Guards, l: Ledger, best: Hash, h: Hash)
    requires TreeOk(t, src.disk) && NoCollision(src.disk) && best in t && h in t && Describes(t, src.disk, l, best)
    requires t[h].trust > t[best].trust
    ensures TakesOver(t, src, g, Some(best), l, h) <==> Overtakes(t, src, g, best, h)
  {
    var bar := t[best].trust;
    var r := Intermediate(t, bar, h);
    IntermediateExactly(t, bar, r, h);
    TakesOverExactly(t, src, g, l, best, h, r);
    forall r' | FirstBeyond(t, bar, r', h) ensures r' == r {
      IntermediateExactly(t, bar, r', h);
    }
  }

  // ---------------------------------------------------------------- how much money there can be

  /** The reward does not depend on the kind of block. It is 140,000 coins while the best chain holds less than 14
      million, and 5 coins from then on; the first block gets 5 coins. */
  lemma RewardExactly(b: Block, cx: Context)
    requires cx.height >= 1
    ensures BareReward(b, cx) ==
      if cx.height == 1 then (if cx.bestSupply > MAX_SINGLE_TX then 0 else 5 * COIN)
      else if cx.bestSupply < 14_000_000 * COIN then 140_000 * COIN
      else 5 * COIN
  {
  }

  /** Every block up to `h` connects to the chain below it, which is then the best one, and has no coinstake
      outside its second place. */
  ghost predicate GrewBlockByBlock(t: Tree, src: Source, g: Guards, h: Hash)
    requires WellFormed(t) && h in t
    decreases t[h].height
  {
    match t[h].pprev
    case None => true
    case Some(p) =>
      && GrewBlockByBlock(t, src, g, p) && ConnectsToOwn(t, src, g, p, h)
      && forall i :: 2 <= i < |t[h].block.vtx| ==> !t[h].block.vtx[i].IsCoinStake()
  }

  /** Then the outputs unspent on the chain are worth at most 14.14 million coins and five more for every block. */
  lemma {:induction false} MoneyIsCapped(t: Tree, src: Source, g: Guards, h: Hash)
    requires TreeOk(t, src.disk) && NoCollision(src.disk) && h in t && GrewBlockByBlock(t, src, g, h)
    ensures CleanPath(t, h) && SupplyAt(t, src.disk, h) <= 14_140_000 * COIN + 5 * COIN * t[h].height
    decreases t[h].height
  {
    match t[h].pprev
    case None => EmptyTotal(src.disk);
    case Some(p) =>
      MoneyIsCapped(t, src, g, p);
      OneBlockMore(t, src, g, p, h);
      StillCapped(t[h].block, OwnContext(t, src, p, h), t[p].height);
  }

  lemma StillCapped(b: Block, cx: Context, n: nat)
    requires cx.height == n + 1 && cx.bestSupply <= 14_140_000 * COIN + 5 * COIN * n
    ensures cx.bestSupply + BareReward(b, cx) <= 14_140_000 * COIN + 5 * COIN * cx.height
  {
    RewardExactly(b, cx);
  }

  /** The context of a block on top of the best one. */
  ghost function OwnContext(t: Tree, src: Source, p: Hash, h: Hash): Context
    requires WellFormed(t) && p in t && h in t
  {
    Context(t[h].at, t[h].height, SupplyAt(t, src.disk, p), SupplyAt(t, src.disk, p))
  }

  lemma OneBlockMore(t: Tree, src: Source, g: Guards, p: Hash, h: Hash)
    requires TreeOk(t, src.disk) && NoCollision(src.disk) && h in t && t[h].pprev == Some(p) && CleanPath(t, p)
    requires ConnectsToOwn(t, src, g, p, h)
    requires forall i :: 2 <= i < |t[h].block.vtx| ==> !t[h].block.vtx[i].IsCoinStake()
    ensures CleanPath(t, h)
    ensures SupplyAt(t, src.disk, h) <= SupplyAt(t, src.disk, p) + BareReward(t[h].block, OwnContext(t, src, p, h))
  {
    var cx := OwnContext(t, src, p, h);
    FreshOnPath(t, src, h, cx, g.checks(h));
    SupplyMatchesUnspent(IndexAt(t, p), src, t[h].block, cx, g.checks(h));
    GainBounded(IndexAt(t, p), src, t[h].block, cx, g.checks(h));
  }
}
