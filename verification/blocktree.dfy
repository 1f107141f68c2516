/** The tree of block index records: paths, the fork search and the lists of blocks to
    disconnect and connect (CBlockIndex in src/main.h, Reorganize in src/main.cpp).
    A pointer to a CBlockIndex is the block's hash, the key of mapBlockIndex. */
module BlockTree {
  import opened Transactions
  import opened Blocks

  /** The fields of CBlockIndex that are fixed when the record is created. */
  datatype Index = Index(block: Block, at: Location, pprev: Option<Hash>, height: nat, trust: int)

  type Tree = map<Hash, Index>

  /** Every record lies one above its predecessor and has at least its trust. */
  predicate WellFormed(t: Tree) {
    forall h {:trigger t[h].pprev} :: h in t ==>
      match t[h].pprev
      case None => t[h].height == 0
      case Some(p) => p in t && t[h].height == t[p].height + 1 && t[p].trust <= t[h].trust
  }

  /** The blocks from the root up to `h`. */
  function Path(t: Tree, h: Hash): (p: seq<Hash>)
    requires WellFormed(t) && h in t
    ensures |p| == t[h].height + 1 && p[|p| - 1] == h
    ensures forall i :: 0 <= i < |p| ==> p[i] in t && t[p[i]].height == i
    decreases t[h].height
  {
    match t[h].pprev
    case None => [h]
    case Some(p) => Path(t, p) + [h]
  }

  predicate IsAncestor(t: Tree, a: Hash, h: Hash)
    requires WellFormed(t) && h in t
  {
    a in Path(t, h)
  }

  lemma {:induction false} PathPrefix(t: Tree, h: Hash, i: nat)
    requires WellFormed(t) && h in t && i <= t[h].height
    ensures Path(t, Path(t, h)[i]) == Path(t, h)[..i + 1]
    decreases t[h].height
  {
    var p := Path(t, h);
    if i == t[h].height {
      assert p[..i + 1] == p;
    } else {
      var q := t[h].pprev.value;
      PathPrefix(t, q, i);
      assert p == Path(t, q) + [h];
      assert p[..i + 1] == Path(t, q)[..i + 1];
    }
  }

  lemma ParentOnPath(t: Tree, h: Hash, i: nat)
    requires WellFormed(t) && h in t && 0 < i <= t[h].height
    ensures t[Path(t, h)[i]].pprev == Some(Path(t, h)[i - 1])
  {
    var x := Path(t, h)[i];
    PathPrefix(t, h, i);
    assert Path(t, x) == Path(t, t[x].pprev.value) + [x];
    assert Path(t, x)[i - 1] == t[x].pprev.value;
  }

  /** An ancestor's path is a prefix, found at its height. */
  lemma AncestorPath(t: Tree, a: Hash, h: Hash)
    requires WellFormed(t) && h in t && IsAncestor(t, a, h)
    ensures a in t && t[a].height <= t[h].height
    ensures Path(t, h)[t[a].height] == a
    ensures Path(t, a) == Path(t, h)[..t[a].height + 1]
  {
    var p := Path(t, h);
    var i :| 0 <= i < |p| && p[i] == a;
    PathPrefix(t, h, i);
  }

  lemma {:induction false} TrustAlongPath(t: Tree, a: Hash, h: Hash)
    requires WellFormed(t) && h in t && IsAncestor(t, a, h)
    ensures a in t && t[a].trust <= t[h].trust
    decreases t[h].height
  {
    if a != h {
      TrustAlongPath(t, a, t[h].pprev.value);
    }
  }

  /** Adding records leaves the paths of the others as they are. */
  lemma {:induction false} PathExtends(t: Tree, t': Tree, h: Hash)
    requires WellFormed(t) && WellFormed(t') && h in t
    requires forall x :: x in t ==> x in t' && t'[x] == t[x]
    ensures Path(t', h) == Path(t, h)
    decreases t[h].height
  {
    if t[h].pprev.Some? {
      PathExtends(t, t', t[h].pprev.value);
    }
  }

  // ---------------------------------------------------------------- the fork

  /** `f` is the highest common ancestor-or-self of `a` and `b`. */
  predicate IsFork(t: Tree, f: Hash, a: Hash, b: Hash)
    requires WellFormed(t) && a in t && b in t
  {
    && IsAncestor(t, f, a) && IsAncestor(t, f, b)
    && forall x :: x in Path(t, a) && x in Path(t, b) ==> x in t && f in t && t[x].height <= t[f].height
  }

  /** The two cursors have the same common ancestors as the two tips. */
  ghost predicate SameCommon(t: Tree, a: Hash, b: Hash, a': Hash, b': Hash)
    requires WellFormed(t) && a in t && b in t && a' in t && b' in t
  {
    forall x :: x in Path(t, a) && x in Path(t, b) <==> x in Path(t, a') && x in Path(t, b')
  }

  lemma StepBack(t: Tree, a: Hash, b: Hash, a': Hash, b': Hash)
    requires WellFormed(t) && a in t && b in t && a' in t && b' in t
    requires SameCommon(t, a, b, a', b')
    requires b' !in Path(t, a') && t[b'].pprev.Some?
    ensures SameCommon(t, a, b, a', t[b'].pprev.value)
  {
    assert Path(t, b') == Path(t, t[b'].pprev.value) + [b'];
  }

  lemma StepBackFirst(t: Tree, a: Hash, b: Hash, a': Hash, b': Hash)
    requires WellFormed(t) && a in t && b in t && a' in t && b' in t
    requires SameCommon(t, a, b, a', b')
    requires a' !in Path(t, b') && t[a'].pprev.Some?
    ensures SameCommon(t, a, b, t[a'].pprev.value, b')
  {
    assert Path(t, a') == Path(t, t[a'].pprev.value) + [a'];
  }

  /** The fork search of Reorganize. It terminates, finds the highest common ancestor, and
      reports the null-pprev error exactly when the two blocks have no common ancestor. */
  method FindFork(t: Tree, best: Hash, new_: Hash) returns (r: Option<Hash>)
    requires WellFormed(t) && best in t && new_ in t
    ensures r.Some? ==> IsFork(t, r.value, best, new_)
    ensures r.None? ==> forall x :: x in Path(t, best) ==> x !in Path(t, new_)
  {
    var fork, longer := best, new_;
    while fork != longer
      invariant fork in t && longer in t && SameCommon(t, best, new_, fork, longer)
      decreases t[fork].height + t[longer].height, 1
    {
      while t[longer].height > t[fork].height
        invariant longer in t && SameCommon(t, best, new_, fork, longer)
        decreases t[longer].height
      {
        StepBack(t, best, new_, fork, longer);
        longer := t[longer].pprev.value;
      }
      if fork == longer {
        break;
      }
      match t[fork].pprev {
        case None =>
          return None;
        case Some(p) =>
          StepBackFirst(t, best, new_, fork, longer);
          fork := p;
      }
    }
    return Some(fork);
  }

  lemma ForkUnique(t: Tree, f: Hash, f': Hash, a: Hash, b: Hash)
    requires WellFormed(t) && a in t && b in t && IsFork(t, f, a, b) && IsFork(t, f', a, b)
    ensures f == f'
  {
    AncestorPath(t, f, a);
    AncestorPath(t, f', a);
  }

  // ---------------------------------------------------------------- the lists

  /** The blocks above `f` on the way up to `h`, lowest first. */
  function Branch(t: Tree, f: Hash, h: Hash): seq<Hash>
    requires WellFormed(t) && h in t
    decreases t[h].height
  {
    if h == f || t[h].pprev.None? then [] else Branch(t, f, t[h].pprev.value) + [h]
  }

  /** The same blocks from `h` down. */
  function BranchBack(t: Tree, f: Hash, h: Hash): seq<Hash>
    requires WellFormed(t) && h in t
    decreases t[h].height
  {
    if h == f || t[h].pprev.None? then [] else [h] + BranchBack(t, f, t[h].pprev.value)
  }

  lemma {:induction false} BranchReversed(t: Tree, f: Hash, h: Hash)
    requires WellFormed(t) && h in t
    ensures Reverse(BranchBack(t, f, h)) == Branch(t, f, h)
    ensures |BranchBack(t, f, h)| == |Branch(t, f, h)|
    decreases t[h].height
  {
    if h != f && t[h].pprev.Some? {
      BranchReversed(t, f, t[h].pprev.value);
      assert BranchBack(t, f, h)[1..] == BranchBack(t, f, t[h].pprev.value);
    }
  }

  /** The path to `h` is the path to an ancestor followed by the branch from there. */
  lemma {:induction false} PathSplits(t: Tree, f: Hash, h: Hash)
    requires WellFormed(t) && h in t && IsAncestor(t, f, h)
    ensures f in t && Path(t, h) == Path(t, f) + Branch(t, f, h)
    decreases t[h].height
  {
    if h != f {
      PathSplits(t, f, t[h].pprev.value);
    }
  }

  /** In a list of blocks that leads up to `h`, `cur` is what the first `i` blocks reach: the
      next block sits on it, or it is `h` itself. */
  predicate Reaches(t: Tree, hs: seq<Hash>, i: nat, cur: Hash, h: Hash) {
    cur in t && if i < |hs| then hs[i] in t && t[hs[i]].pprev == Some(cur) else cur == h
  }

  /** Each block of a branch sits on the one before, the first on `f`; the last is `h`. */
  lemma {:induction false} BranchAt(t: Tree, f: Hash, h: Hash, i: nat)
    requires WellFormed(t) && h in t && IsAncestor(t, f, h) && i < |Branch(t, f, h)|
    ensures Reaches(t, Branch(t, f, h), i + 1, Branch(t, f, h)[i], h)
    ensures IsAncestor(t, f, Branch(t, f, h)[i]) && IsAncestor(t, Branch(t, f, h)[i], h) && Branch(t, f, h)[i] != f
    decreases t[h].height
  {
    var q := t[h].pprev.value;
    if i < |Branch(t, f, q)| {
      BranchAt(t, f, q, i);
    }
  }

  lemma {:induction false} BranchStart(t: Tree, f: Hash, h: Hash)
    requires WellFormed(t) && h in t && IsAncestor(t, f, h) && f in t
    ensures Reaches(t, Branch(t, f, h), 0, f, h)
    decreases t[h].height
  {
    if h != f {
      BranchStart(t, f, t[h].pprev.value);
    }
  }

  /** One step of a loop over BranchBack. */
  lemma BackStep(t: Tree, f: Hash, h: Hash)
    requires WellFormed(t) && h in t && IsAncestor(t, f, h)
    ensures BranchBack(t, f, h) == [] <==> h == f
    ensures h != f ==>
      && t[h].pprev.Some? && IsAncestor(t, f, t[h].pprev.value)
      && BranchBack(t, f, h)[0] == h && BranchBack(t, f, h)[1..] == BranchBack(t, f, t[h].pprev.value)
  {
  }

  /** The loops that collect vDisconnect and vConnect: from `h` back to, but without, `f`. */
  method CollectBack(t: Tree, f: Hash, h: Hash) returns (v: seq<Hash>)
    requires WellFormed(t) && h in t && IsAncestor(t, f, h)
    ensures v == BranchBack(t, f, h)
  {
    v := [];
    var x := h;
    while x != f
      invariant x in t && IsAncestor(t, f, x)
      invariant v + BranchBack(t, f, x) == BranchBack(t, f, h)
      decreases t[x].height
    {
      BackStep(t, f, x);
      v := v + [x];
      x := t[x].pprev.value;
    }
  }

  // ---------------------------------------------------------------- the next-block links

  /** Every link leads from a block of the path to `tip` to the next one. */
  predicate LinksWithin(t: Tree, next: map<Hash, Hash>, tip: Hash)
    requires WellFormed(t) && tip in t
  {
    && (forall h {:trigger h in next} :: h in next ==> h in Path(t, tip) && h != tip)
    && (forall h {:trigger next[h]} :: h in next ==>
          next[h] in Path(t, tip) && next[h] in t && t[next[h]].pprev == Some(h))
  }

  /** pnext steps along the path to `tip`, is null at the tip and everywhere off the path. */
  predicate LinksAlong(t: Tree, next: map<Hash, Hash>, tip: Hash)
    requires WellFormed(t) && tip in t
  {
    LinksWithin(t, next, tip) && forall h {:trigger h in Path(t, tip)} :: h in Path(t, tip) && h != tip ==> h in next
  }
}
