/** What selecting blocks for the stake modifier means (src/kernel.cpp), said of times, rounds and hashes. */
module StakeLaws {
  import opened Transactions
  import opened StakeModifier

  // ---------------------------------------------------------------- hashes

  /** The hash of a block by stake is divided by 2^32, that of a block by work is taken as it is. */
  lemma SelectionHashExactly(hash: ProofHash, n: Node, m: nat, x: nat)
    ensures SelectionHash(hash, n, m) == x <==>
      if n.isStake then 0x1_0000_0000 * x <= hash(n.proof, m) < 0x1_0000_0000 * (x + 1) else x == hash(n.proof, m)
  {
  }

  /** So a block by stake comes before every block by work whose hash is not 2^32 times smaller. */
  lemma StakeFavoured(hash: ProofHash, stake: Node, work: Node, m: nat)
    requires stake.isStake && !work.isStake && hash(stake.proof, m) < 0x1_0000_0000 * hash(work.proof, m)
    ensures SelectionHash(hash, stake, m) < SelectionHash(hash, work, m)
  {
  }

  // ---------------------------------------------------------------- the selection interval

  /** Section `n` is the interval of two minutes, scaled by 63 parts in 189 - 2n and rounded down. */
  lemma SectionExactly(n: nat)
    requires n < 64
    ensures var parts := 189 - 2 * n; Section(n) * parts <= 120 * 63 < (Section(n) + 1) * parts
  {
    var parts := 189 - 2 * n;
    assert 63 + (63 - n) * 2 == parts;
    assert Section(n) == 7560 / parts;
    Rounded(7560, parts);
  }

  lemma Rounded(a: nat, d: nat)
    requires d > 0
    ensures a / d * d <= a < (a / d + 1) * d
  {
    assert a == a / d * d + a % d;
  }

  /** The sections grow from a third of the interval to the whole. */
  lemma SectionsGrow(m: nat, n: nat)
    requires m <= n < 64
    ensures 40 <= Section(m) <= Section(n) <= 120
  {
    SectionExactly(m);
    SectionExactly(n);
    Quotients(7560, 189 - 2 * m, 189 - 2 * n);
    Quotients(7560, 189, 189 - 2 * m);
    Quotients(7560, 189 - 2 * n, 63);
  }

  lemma Quotients(a: nat, d: nat, e: nat)
    requires d >= e > 0
    ensures a / d <= a / e
  {
    if a / d > a / e {
      Rounded(a, d);
      Rounded(a, e);
      Grows(a / e + 1, a / d, e, d);
    }
  }

  lemma Grows(x: nat, y: nat, e: nat, d: nat)
    requires x <= y && e <= d
    ensures x * e <= y * d
  {
    assert x * e <= y * e;
    assert y * e <= y * d;
  }

  /** So after `r` rounds the limit has moved by 40 to 120 seconds a round. */
  lemma {:induction false} LimitMoves(r: nat)
    requires r <= 64
    ensures 40 * r <= SectionsTo(r) <= 120 * r
    ensures r < 64 ==> SectionsTo(r + 1) == SectionsTo(r) + 7560 / (189 - 2 * r)
  {
    if r > 0 {
      LimitMoves(r - 1);
      SectionsGrow(r - 1, r - 1);
    }
  }

  // ---------------------------------------------------------------- the candidates

  /** The block `k` steps back. */
  function StepsBack(t: Nodes, h: Hash, k: nat): Option<Hash>
    requires Linked(t) && h in t
    decreases k
  {
    if k == 0 then Some(h) else match t[h].prev case None => None case Some(p) => StepsBack(t, p, k - 1)
  }

  /** The block and all after it are in the interval. */
  ghost predicate InInterval(t: Nodes, h: Hash, start: int, k: nat)
    requires Linked(t) && h in t
  {
    forall i: nat :: i <= k ==>
      StepsBack(t, h, i).Some? && StepsBack(t, h, i).value in t && t[StepsBack(t, h, i).value].time >= start
  }

  /** Candidate `k` is the block `k` steps back, as long as no block from there on is dated before the start. */
  lemma {:induction false} CandidatesExactly(t: Nodes, h: Hash, start: int, k: nat)
    requires Linked(t) && h in t
    ensures var v := CandidatesBack(t, h, start);
            && (k < |v| <==> InInterval(t, h, start, k))
            && (k < |v| ==> StepsBack(t, h, k) == Some(v[k].1) && v[k].1 in t && v[k].0 == t[v[k].1].time)
    decreases k
  {
    assert StepsBack(t, h, 0) == Some(h);
    if k > 0 {
      match t[h].prev
      case None => assert StepsBack(t, h, k).None?;
      case Some(p) =>
        CandidatesExactly(t, p, start, k - 1);
        OneBack(t, h, p, start, k);
    }
  }

  lemma OneBack(t: Nodes, h: Hash, p: Hash, start: int, k: nat)
    requires Linked(t) && h in t && t[h].prev == Some(p) && k > 0
    ensures InInterval(t, h, start, k) <==> t[h].time >= start && InInterval(t, p, start, k - 1)
  {
    assert StepsBack(t, h, 0) == Some(h);
    forall i: nat ensures StepsBack(t, h, i + 1) == StepsBack(t, p, i) {
    }
    if InInterval(t, h, start, k) {
      forall i: nat | i <= k - 1
        ensures StepsBack(t, p, i).Some? && StepsBack(t, p, i).value in t && t[StepsBack(t, p, i).value].time >= start {
        assert StepsBack(t, h, i + 1) == StepsBack(t, p, i);
      }
    }
    if t[h].time >= start && InInterval(t, p, start, k - 1) {
      forall i: nat | i <= k
        ensures StepsBack(t, h, i).Some? && StepsBack(t, h, i).value in t && t[StepsBack(t, h, i).value].time >= start {
        if i > 0 {
          assert StepsBack(t, h, i) == StepsBack(t, p, i - 1);
        }
      }
    }
  }

  // ---------------------------------------------------------------- the rounds

  /** Candidate `i` was selected in one of the first `r` rounds. */
  ghost predicate TakenBy(v: seq<Candidate>, picks: seq<nat>, r: nat, i: nat) {
    i < |v| && exists q :: 0 <= q < r && q < |picks| && picks[q] < |v| && v[picks[q]].1 == v[i].1
  }

  lemma {:induction false} TakenIs(v: seq<Candidate>, picks: seq<nat>, r: nat, i: nat)
    requires r <= |picks| && i < |v|
    ensures v[i].1 in SelectedTo(v, picks, r) <==> TakenBy(v, picks, r, i)
  {
    if r > 0 {
      TakenIs(v, picks, r - 1, i);
    }
  }

  /** Candidate `i` can be selected in round `r`: no round before did, and it is the first such one or is dated
      within the sections of the rounds so far. */
  ghost predicate Selectable(v: seq<Candidate>, start: int, picks: seq<nat>, r: nat, i: nat) {
    && i < |v| && !TakenBy(v, picks, r, i)
    && (|| v[i].0 <= start + SectionsTo(if r < 64 then r + 1 else 64)
        || forall j: nat :: j < i ==> TakenBy(v, picks, r, j))
  }

  lemma SelectableIs(v: seq<Candidate>, start: int, picks: seq<nat>, r: nat, i: nat)
    requires r < |picks| && r < 64
    ensures Eligible(v, SelectedTo(v, picks, r), start + SectionsTo(r + 1), i) <==> Selectable(v, start, picks, r, i)
  {
    var selected := SelectedTo(v, picks, r);
    forall j: nat | j < |v| ensures v[j].1 in selected <==> TakenBy(v, picks, r, j) {
      TakenIs(v, picks, r, j);
    }
    if i < |v| && !TakenBy(v, picks, r, i) && forall j: nat :: j < i ==> TakenBy(v, picks, r, j) {
      FirstLeftIs(v, selected, i);
    }
  }

  /** Each round selects, of the candidates it can, the one with the least selection hash, and of several the first. */
  lemma RoundTakesLeast(t: Nodes, hash: ProofHash, v: seq<Candidate>, start: int, m: nat, bits: nat, picks: seq<nat>,
                        r: nat, i: nat)
    requires AllKnown(t, v) && RoundsGive(t, hash, v, start, m, bits, picks) && r < |picks|
    ensures Selectable(v, start, picks, r, picks[r])
    ensures Selectable(v, start, picks, r, i) ==>
      var best, other := SelectionHash(hash, t[v[picks[r]].1], m), SelectionHash(hash, t[v[i].1], m);
      best < other || (best == other && picks[r] <= i)
  {
    assert RoundOk(t, hash, v, start, m, picks, r);
    SelectableIs(v, start, picks, r, picks[r]);
    SelectableIs(v, start, picks, r, i);
    if Selectable(v, start, picks, r, i) {
      assert NoWorse(t, hash, v, m, picks[r], i);
    }
  }

  /** Bit `r` of the new modifier is set exactly if round `r` took place and the block it selected has an entropy bit
      of one. */
  lemma BitsExactly(t: Nodes, hash: ProofHash, v: seq<Candidate>, start: int, m: nat, bits: nat, picks: seq<nat>,
                    r: nat)
    requires AllKnown(t, v) && RoundsGive(t, hash, v, start, m, bits, picks)
    ensures r < 64 && r < |v| ==> r < |picks| && picks[r] < |v| && v[picks[r]].1 in t
    ensures Bit(bits, r) == if r < 64 && r < |v| && t[v[picks[r]].1].entropy == 1 then 1 else 0
  {
    BitIsEntropy(t, v, picks, |picks|, r);
    if r < |picks| {
      assert RoundOk(t, hash, v, start, m, picks, r);
    }
  }
}
