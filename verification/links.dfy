/** The next-block links (pnext) of the main chain: what they mean, how a block is linked and
    unlinked, and how records are found along them. */
module Links {
  import opened Transactions
  import opened BlockTree

  // ---------------------------------------------------------------- the loops over the links, as functions

  /** The links when the blocks from `b` down to, but without, `f` are taken off. */
  function UnlinkedTo(t: Tree, next: map<Hash, Hash>, b: Hash, f: Hash): map<Hash, Hash>
    requires WellFormed(t) && b in t
    decreases t[b].height
  {
    if b == f || t[b].pprev.None? then next else UnlinkedTo(t, next - {t[b].pprev.value}, t[b].pprev.value, f)
  }

  /** The links when the blocks above `f` up to `h` are put on. */
  function LinkedTo(t: Tree, next: map<Hash, Hash>, f: Hash, h: Hash): map<Hash, Hash>
    requires WellFormed(t) && h in t
    decreases t[h].height
  {
    if h == f || t[h].pprev.None? then next else LinkedTo(t, next, f, t[h].pprev.value)[t[h].pprev.value := h]
  }

  /** Taking the tip off the chain. */
  lemma Unlink(t: Tree, next: map<Hash, Hash>, h: Hash)
    requires WellFormed(t) && h in t && t[h].pprev.Some? && LinksWithin(t, next, h)
    ensures LinksWithin(t, next - {t[h].pprev.value}, t[h].pprev.value)
  {
    assert Path(t, h) == Path(t, t[h].pprev.value) + [h];
  }

  /** Putting a block on top of the tip. */
  lemma Link(t: Tree, next: map<Hash, Hash>, h: Hash)
    requires WellFormed(t) && h in t && t[h].pprev.Some? && LinksWithin(t, next, t[h].pprev.value)
    ensures LinksWithin(t, next[t[h].pprev.value := h], h)
    ensures LinksAlong(t, next[t[h].pprev.value := h], h) <==> LinksAlong(t, next, t[h].pprev.value)
  {
    var q := t[h].pprev.value;
    assert Path(t, h) == Path(t, q) + [h];
    if LinksAlong(t, next[q := h], h) {
      forall x | x in Path(t, q) && x != q ensures x in next {
        assert x in Path(t, h) && x != h;
      }
    }
  }

  /** No link is missing below `f`. */
  predicate LinkedBelow(t: Tree, next: map<Hash, Hash>, f: Hash)
    requires WellFormed(t) && f in t
  {
    forall h {:trigger h in Path(t, f)} :: h in Path(t, f) && h != f ==> h in next
  }

  lemma {:induction false} Unlinked(t: Tree, next: map<Hash, Hash>, b: Hash, f: Hash)
    requires WellFormed(t) && b in t && IsAncestor(t, f, b) && LinksWithin(t, next, b)
    ensures f in t && LinksWithin(t, UnlinkedTo(t, next, b, f), f)
    ensures LinksAlong(t, UnlinkedTo(t, next, b, f), f) <==> LinkedBelow(t, next, f)
    decreases t[b].height
  {
    AncestorPath(t, f, b);
    if b != f {
      var q := t[b].pprev.value;
      Unlink(t, next, b);
      Unlinked(t, next - {q}, q, f);
      NotBelow(t, next, q, f);
    }
  }

  lemma NotBelow(t: Tree, next: map<Hash, Hash>, q: Hash, f: Hash)
    requires WellFormed(t) && q in t && f in t && IsAncestor(t, f, q)
    ensures LinkedBelow(t, next - {q}, f) <==> LinkedBelow(t, next, f)
  {
    AncestorPath(t, f, q);
    forall x | x in Path(t, f) && x != f ensures x in next - {q} <==> x in next {
      AncestorPath(t, x, f);
    }
  }

  lemma {:induction false} Linked(t: Tree, next: map<Hash, Hash>, f: Hash, h: Hash)
    requires WellFormed(t) && h in t && IsAncestor(t, f, h) && f in t && LinksWithin(t, next, f)
    ensures LinksWithin(t, LinkedTo(t, next, f, h), h)
    ensures LinksAlong(t, LinkedTo(t, next, f, h), h) <==> LinksAlong(t, next, f)
    decreases t[h].height
  {
    if h != f {
      Linked(t, next, f, t[h].pprev.value);
      Link(t, LinkedTo(t, next, f, t[h].pprev.value), h);
    }
  }

  /** Links within the path to an ancestor are within the path to `h`. */
  lemma WithinLonger(t: Tree, next: map<Hash, Hash>, a: Hash, h: Hash)
    requires WellFormed(t) && h in t && IsAncestor(t, a, h) && a in t && LinksWithin(t, next, a)
    ensures LinksWithin(t, next, h)
  {
    AncestorPath(t, a, h);
    forall x | x in next ensures x in Path(t, h) && x != h && next[x] in Path(t, h) {
      assert x in Path(t, a) && next[x] in Path(t, a);
      if x == h {
        AncestorPath(t, h, a);
        SameHeight(t, h, a, t[h].height);
      }
    }
  }

  /** Links that end in `a` are links within the chain to `h`, and lead to `h` only if it is `a`. */
  lemma WithinTells(t: Tree, next: map<Hash, Hash>, a: Hash, h: Hash)
    requires WellFormed(t) && h in t && IsAncestor(t, a, h) && a in t && LinksWithin(t, next, a)
    ensures LinksWithin(t, next, h) && (LinksAlong(t, next, h) <==> LinksAlong(t, next, a) && a == h)
  {
    WithinLonger(t, next, a, h);
    assert a in Path(t, h);
  }

  /** A new record off the chain leaves the links. */
  lemma LinksGrow(t: Tree, next: map<Hash, Hash>, best: Hash, h: Hash, x: Index)
    requires WellFormed(t) && best in t && h !in t && WellFormed(t[h := x]) && LinksWithin(t, next, best)
    requires Path(t[h := x], best) == Path(t, best)
    ensures LinksWithin(t[h := x], next, best) && (LinksAlong(t[h := x], next, best) <==> LinksAlong(t, next, best))
  {
  }

  /** CBlockIndex::IsInMainChain: a next block, or the best block itself. */
  predicate IsInMainChain(next: map<Hash, Hash>, best: Hash, h: Hash) {
    h in next || h == best
  }

  /** With links along the path to `best`, IsInMainChain means exactly ancestor-or-self. */
  lemma MainChainIsPath(t: Tree, next: map<Hash, Hash>, best: Hash, h: Hash)
    requires WellFormed(t) && best in t && LinksAlong(t, next, best)
    ensures IsInMainChain(next, best, h) <==> IsAncestor(t, h, best)
  {
  }

  /** A single block has no predecessor. */
  ghost predicate OneRoot(t: Tree, r: Hash) {
    r in t && forall h {:trigger t[h].pprev} :: h in t && t[h].pprev.None? ==> h == r
  }

  lemma ParentsLieLower(t: Tree, h: Hash)
    requires WellFormed(t) && h in t
    ensures t[h].pprev.Some? ==> t[h].height > 0
  {
    if t[h].pprev.Some? {
      assert t[t[h].pprev.value].height >= 0;
    }
  }

  lemma RootOfPath(t: Tree, r: Hash, h: Hash)
    requires WellFormed(t) && OneRoot(t, r) && h in t
    ensures Path(t, h)[0] == r
  {
    ParentsLieLower(t, Path(t, h)[0]);
  }

  /** The next record lies one above on the same path. */
  lemma NextOnPath(t: Tree, next: map<Hash, Hash>, tip: Hash, h: Hash)
    requires WellFormed(t) && tip in t && LinksWithin(t, next, tip) && IsAncestor(t, h, tip) && h in next
    ensures IsAncestor(t, next[h], tip) && next[h] in t && h in t && t[next[h]].height == t[h].height + 1
    ensures t[h].height < t[tip].height
  {
    AncestorPath(t, h, tip);
    AncestorPath(t, next[h], tip);
  }

  /** Ancestors of the same block at the same height are the same. */
  lemma SameHeight(t: Tree, tip: Hash, h: Hash, n: nat)
    requires WellFormed(t) && tip in t && IsAncestor(t, h, tip) && h in t && t[h].height == n
    ensures n <= t[tip].height && h == Path(t, tip)[n]
  {
    AncestorPath(t, h, tip);
  }

  lemma StrictlyBelow(t: Tree, x: Hash, h: Hash)
    requires WellFormed(t) && h in t && x in t && IsAncestor(t, x, h) && t[x].height > 0
    ensures t[x].pprev.Some? && t[x].pprev.value in t && IsAncestor(t, t[x].pprev.value, h)
    ensures t[t[x].pprev.value].height == t[x].height - 1
  {
    AncestorPath(t, x, h);
    ParentOnPath(t, h, t[x].height);
  }

  /** None of the blocks is on the chain that ends in `best`. */
  ghost predicate OffChain(t: Tree, best: Hash, hs: seq<Hash>)
    requires WellFormed(t) && best in t
  {
    forall i :: 0 <= i < |hs| ==> !IsAncestor(t, hs[i], best)
  }

  /** The blocks above the fork are off the main chain. */
  lemma BranchIsOff(t: Tree, fork: Hash, best: Hash, to: Hash)
    requires WellFormed(t) && best in t && to in t && IsFork(t, fork, best, to)
    ensures OffChain(t, best, Branch(t, fork, to))
  {
    var hs := Branch(t, fork, to);
    forall i | 0 <= i < |hs| ensures !IsAncestor(t, hs[i], best) {
      BranchAt(t, fork, to, i);
      AncestorPath(t, fork, hs[i]);
    }
  }

  /** No link is missing on the path to `tip` between the heights `lo` and `n`. */
  predicate Climbs(t: Tree, next: map<Hash, Hash>, tip: Hash, lo: nat, n: nat)
    requires WellFormed(t) && tip in t
  {
    forall i: nat :: lo <= i < n ==> HasLink(next, Path(t, tip), i)
  }

  predicate HasLink(next: map<Hash, Hash>, p: seq<Hash>, i: nat) {
    i < |p| && p[i] in next
  }

  lemma ClimbStep(t: Tree, next: map<Hash, Hash>, tip: Hash, h: Hash, n: nat)
    requires WellFormed(t) && tip in t && IsAncestor(t, h, tip) && h in t && t[h].height < n
    ensures Climbs(t, next, tip, t[h].height, n) <==> h in next && Climbs(t, next, tip, t[h].height + 1, n)
  {
    var p, lo := Path(t, tip), t[h].height;
    SameHeight(t, tip, h, lo);
    assert HasLink(next, p, lo) <==> h in next;
    if h in next && Climbs(t, next, tip, lo + 1, n) {
      forall i: nat | lo <= i < n ensures HasLink(next, p, i) {
      }
    }
  }

  /** The two loops of FindBlockByHeight: back along pprev, then forward along pnext. None stands for
      the read through a null pointer where a link is missing. */
  method WalkTo(t: Tree, next: map<Hash, Hash>, b: Hash, from: Hash, n: nat) returns (r: Option<Hash>)
    requires WellFormed(t) && b in t && LinksWithin(t, next, b) && IsAncestor(t, from, b) && from in t
    ensures r.Some? <==> Climbs(t, next, b, t[from].height, n)
    ensures r.Some? ==> n <= t[b].height && r.value == Path(t, b)[n]
  {
    var h := GoBack(t, b, from, n);
    r := GoForward(t, next, b, h, n);
  }

  method GoBack(t: Tree, b: Hash, from: Hash, n: nat) returns (h: Hash)
    requires WellFormed(t) && b in t && IsAncestor(t, from, b) && from in t
    ensures h in t && IsAncestor(t, h, b) && t[h].height == Min(t[from].height, n)
  {
    h := from;
    while t[h].height > n
      invariant h in t && IsAncestor(t, h, b) && Min(t[from].height, n) <= t[h].height <= t[from].height
      decreases t[h].height
    {
      StrictlyBelow(t, h, b);
      h := t[h].pprev.value;
    }
  }

  method GoForward(t: Tree, next: map<Hash, Hash>, b: Hash, from: Hash, n: nat) returns (r: Option<Hash>)
    requires WellFormed(t) && b in t && LinksWithin(t, next, b) && IsAncestor(t, from, b) && from in t
    requires t[from].height <= n
    ensures r.Some? <==> Climbs(t, next, b, t[from].height, n)
    ensures r.Some? ==> n <= t[b].height && r.value == Path(t, b)[n]
  {
    var h := from;
    while t[h].height < n
      invariant h in t && IsAncestor(t, h, b) && t[h].height <= n
      invariant Climbs(t, next, b, t[from].height, n) <==> Climbs(t, next, b, t[h].height, n)
      decreases n - t[h].height
    {
      ClimbStep(t, next, b, h, n);
      if h !in next {
        return None;
      }
      NextOnPath(t, next, b, h);
      h := next[h];
    }
    SameHeight(t, b, h, n);
    return Some(h);
  }

  /** Where no link is missing, nothing between two heights is. */
  lemma AlongClimbs(t: Tree, next: map<Hash, Hash>, tip: Hash, lo: nat, n: nat)
    requires WellFormed(t) && tip in t && LinksAlong(t, next, tip) && n <= t[tip].height
    ensures Climbs(t, next, tip, lo, n)
  {
    var p := Path(t, tip);
    forall i: nat | lo <= i < n ensures HasLink(next, p, i) {
      assert p[i] in Path(t, tip) && p[i] != tip;
    }
  }
}
