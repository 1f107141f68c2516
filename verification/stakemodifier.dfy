/** The stake modifier (src/kernel.cpp): repeated selection without replacement under a moving time
    limit, and the modifiers recorded with the blocks. */
module StakeModifier {
  import opened Transactions
  import opened Powers

  const MODIFIER_INTERVAL: nat := 120
  const INTERVAL_RATIO: nat := 3
  const ROUNDS: nat := 64

  /** The fields of CBlockIndex that the kernel code reads. */
  datatype Node = Node(time: nat, prev: Option<Hash>, height: nat, proof: Hash, isStake: bool, entropy: nat,
                       modifier: nat, generated: bool)

  type Nodes = map<Hash, Node>

  predicate Linked(t: Nodes) {
    forall h {:trigger t[h].prev} :: h in t ==>
      match t[h].prev
      case None => t[h].height == 0
      case Some(p) => p in t && t[h].height == t[p].height + 1
  }

  // ---------------------------------------------------------------- the nearest generating block

  /** The nearest ancestor-or-self with a generated modifier. */
  function Nearest(t: Nodes, h: Hash): Option<Hash>
    requires Linked(t) && h in t
    decreases t[h].height
  {
    if t[h].generated then Some(h) else
      match t[h].prev
      case None => None
      case Some(p) => Nearest(t, p)
  }

  lemma {:induction false} NearestKnown(t: Nodes, h: Hash)
    requires Linked(t) && h in t
    ensures Nearest(t, h).Some? ==> Nearest(t, h).value in t && t[Nearest(t, h).value].generated
    decreases t[h].height
  {
    if !t[h].generated && t[h].prev.Some? {
      NearestKnown(t, t[h].prev.value);
    }
  }

  /** GetLastStakeModifier: the modifier and the time of the nearest generating block. */
  method GetLastStakeModifier(t: Nodes, h: Hash) returns (r: Option<(nat, nat)>)
    requires Linked(t) && h in t
    ensures r.Some? <==> Nearest(t, h).Some?
    ensures r.Some? ==>
      Nearest(t, h).value in t && r.value == (t[Nearest(t, h).value].modifier, t[Nearest(t, h).value].time)
  {
    NearestKnown(t, h);
    var x := h;
    while t[x].prev.Some? && !t[x].generated
      invariant x in t && Nearest(t, x) == Nearest(t, h)
      decreases t[x].height
    {
      x := t[x].prev.value;
    }
    if !t[x].generated { return None; }
    return Some((t[x].modifier, t[x].time));
  }

  // ---------------------------------------------------------------- sorting the candidates

  type Candidate = (int, Hash)

  /** The order of pairs. */
  predicate UpTo(a: Candidate, b: Candidate) {
    a.0 < b.0 || (a.0 == b.0 && a.1 <= b.1)
  }

  ghost predicate Ordered(q: seq<Candidate>) {
    forall i, j :: 0 <= i < j < |q| ==> UpTo(q[i], q[j])
  }

  function Insert(x: Candidate, q: seq<Candidate>): seq<Candidate> {
    if q == [] || UpTo(x, q[0]) then [x] + q else [q[0]] + Insert(x, q[1..])
  }

  function Sort(q: seq<Candidate>): seq<Candidate> {
    if q == [] then [] else Insert(q[0], Sort(q[1..]))
  }

  lemma {:induction false} InsertKeeps(x: Candidate, q: seq<Candidate>)
    ensures multiset(Insert(x, q)) == multiset(q) + multiset{x}
  {
    if q != [] && !UpTo(x, q[0]) {
      InsertKeeps(x, q[1..]);
      assert q == [q[0]] + q[1..];
    }
  }

  lemma {:induction false} InsertOrders(x: Candidate, q: seq<Candidate>)
    requires Ordered(q)
    ensures Ordered(Insert(x, q))
  {
    if q != [] && !UpTo(x, q[0]) {
      InsertOrders(x, q[1..]);
      var r := Insert(x, q[1..]);
      InsertKeeps(x, q[1..]);
      forall i | 0 <= i < |r| ensures UpTo(q[0], r[i]) {
        assert r[i] in multiset(r);
        assert r[i] == x || r[i] in q[1..];
      }
    }
  }

  /** Sorting permutes and orders. */
  lemma {:induction false} SortSorts(q: seq<Candidate>)
    ensures multiset(Sort(q)) == multiset(q) && Ordered(Sort(q))
  {
    if q != [] {
      SortSorts(q[1..]);
      InsertKeeps(q[0], Sort(q[1..]));
      InsertOrders(q[0], Sort(q[1..]));
      assert q == [q[0]] + q[1..];
    }
  }

  // ---------------------------------------------------------------- one selection

  /** The hash of a proof with the previous modifier. */
  type ProofHash = (Hash, nat) -> nat

  /** Proof-of-stake blocks are favoured. */
  function SelectionHash(hash: ProofHash, n: Node, m: nat): nat {
    if n.isStake then hash(n.proof, m) / 0x100000000 else hash(n.proof, m)
  }

  predicate AllKnown(t: Nodes, v: seq<Candidate>) {
    forall i :: 0 <= i < |v| ==> v[i].1 in t && t[v[i].1].time == v[i].0
  }

  /** The first candidate that has not been selected. */
  function FirstLeft(v: seq<Candidate>, selected: set<Hash>): (i: nat)
    ensures i <= |v| && (i < |v| ==> v[i].1 !in selected) && forall j :: 0 <= j < i ==> v[j].1 in selected
  {
    if v == [] || v[0].1 !in selected then 0 else 1 + FirstLeft(v[1..], selected)
  }

  lemma {:induction false} FirstLeftIs(v: seq<Candidate>, selected: set<Hash>, i: nat)
    requires i <= |v| && (i < |v| ==> v[i].1 !in selected) && forall j :: 0 <= j < i ==> v[j].1 in selected
    ensures FirstLeft(v, selected) == i
  {
    if i > 0 {
      FirstLeftIs(v[1..], selected, i - 1);
    }
  }

  /** The blocks a round chooses from: the first unselected one, and unselected ones up to the limit. */
  predicate Eligible(v: seq<Candidate>, selected: set<Hash>, stop: int, i: nat) {
    i < |v| && v[i].1 !in selected && (i == FirstLeft(v, selected) || v[i].0 <= stop)
  }

  function HashAt(t: Nodes, hash: ProofHash, v: seq<Candidate>, m: nat, i: nat): nat {
    if i < |v| && v[i].1 in t then SelectionHash(hash, t[v[i].1], m) else 0
  }

  /** The least selection hash among the eligible blocks, the first of these on a tie. */
  ghost predicate Best(t: Nodes, hash: ProofHash, v: seq<Candidate>, selected: set<Hash>, stop: int, m: nat, c: nat) {
    && Eligible(v, selected, stop, c)
    && forall j :: Eligible(v, selected, stop, j) ==> NoWorse(t, hash, v, m, c, j)
  }

  predicate NoWorse(t: Nodes, hash: ProofHash, v: seq<Candidate>, m: nat, c: nat, j: nat) {
    var x, y := HashAt(t, hash, v, m, c), HashAt(t, hash, v, m, j);
    x < y || (x == y && c <= j)
  }

  /** SelectBlockFromCandidates: no block is selected only when a candidate is unknown or none is left. */
  method SelectBlockFromCandidates(t: Nodes, hash: ProofHash, v: seq<Candidate>, selected: set<Hash>, stop: int, m: nat)
    returns (r: Option<nat>)
    ensures r.Some? ==> r.value < |v| && v[r.value].1 in t
    ensures AllKnown(t, v) && Ordered(v) && r.Some? ==> Best(t, hash, v, selected, stop, m, r.value)
    ensures AllKnown(t, v) && r.None? ==> FirstLeft(v, selected) == |v|
  {
    var i, best := 0, 0;
    r := None;
    while i < |v|
      invariant i <= |v| && (r.Some? ==> r.value < i && v[r.value].1 in t && best == HashAt(t, hash, v, m, r.value))
      invariant r.None? ==> forall j :: 0 <= j < i ==> v[j].1 in selected
      invariant r.Some? ==> FirstLeft(v, selected) <= r.value
      invariant r.Some? ==> Eligible(v, selected, stop, r.value) || !AllKnown(t, v)
      invariant r.Some? ==> forall j :: 0 <= j < i && Eligible(v, selected, stop, j) ==>
        NoWorse(t, hash, v, m, r.value, j)
    {
      if v[i].1 !in t { return None; }
      var n := t[v[i].1];
      if r.Some? && n.time > stop {
        if AllKnown(t, v) && Ordered(v) {
          NoneBeyond(v, selected, stop, i);
        }
        return;
      }
      if v[i].1 !in selected {
        var x := SelectionHash(hash, n, m);
        if r.None? {
          FirstLeftIs(v, selected, i);
        }
        if r.None? || x < best {
          r, best := Some(i), x;
        }
      }
      i := i + 1;
    }
    if r.None? {
      FirstLeftIs(v, selected, |v|);
    }
  }

  /** Past a candidate beyond the limit nothing is eligible, except the first unselected one. */
  lemma NoneBeyond(v: seq<Candidate>, selected: set<Hash>, stop: int, i: nat)
    requires Ordered(v) && i < |v| && v[i].0 > stop && FirstLeft(v, selected) < i
    ensures forall j :: i <= j ==> !Eligible(v, selected, stop, j)
  {
    forall j | i <= j ensures !Eligible(v, selected, stop, j) {
      if i < j < |v| {
        assert UpTo(v[i], v[j]);
      }
    }
  }

  // ---------------------------------------------------------------- the candidates

  /** GetStakeModifierSelectionIntervalSection. */
  function Section(n: nat): nat
    requires n < ROUNDS
  {
    MODIFIER_INTERVAL * 63 / (63 + (63 - n) * (INTERVAL_RATIO - 1))
  }

  function SectionsTo(n: nat): nat
    requires n <= ROUNDS
  {
    if n == 0 then 0 else SectionsTo(n - 1) + Section(n - 1)
  }

  /** GetStakeModifierSelectionInterval. */
  method SelectionInterval() returns (r: nat)
    ensures r == SectionsTo(ROUNDS)
  {
    r := 0;
    for n := 0 to ROUNDS
      invariant r == SectionsTo(n)
    {
      r := r + Section(n);
    }
  }

  /** The blocks back from `h` down to the first one before `start`. */
  function CandidatesBack(t: Nodes, h: Hash, start: int): seq<Candidate>
    requires Linked(t) && h in t
    decreases t[h].height
  {
    if t[h].time < start then []
    else [(t[h].time as int, h)] + match t[h].prev case None => [] case Some(p) => CandidatesBack(t, p, start)
  }

  method Gather(t: Nodes, h: Hash, start: int) returns (v: seq<Candidate>)
    requires Linked(t) && h in t
    ensures v == CandidatesBack(t, h, start)
  {
    v := [];
    var x := Some(h);
    while x.Some? && t[x.value].time >= start
      invariant x.Some? ==> x.value in t && v + CandidatesBack(t, x.value, start) == CandidatesBack(t, h, start)
      invariant x.None? ==> v == CandidatesBack(t, h, start)
      decreases x.Some?, if x.Some? then t[x.value].height else 0
    {
      v := v + [(t[x.value].time as int, x.value)];
      x := t[x.value].prev;
    }
  }

  ghost predicate Distinct(v: seq<Candidate>) {
    forall i, j :: 0 <= i < j < |v| ==> v[i].1 != v[j].1
  }

  lemma {:induction false} CandidatesKnown(t: Nodes, h: Hash, start: int)
    requires Linked(t) && h in t
    ensures AllKnown(t, CandidatesBack(t, h, start)) && Distinct(CandidatesBack(t, h, start))
    ensures forall i :: 0 <= i < |CandidatesBack(t, h, start)| ==>
      CandidatesBack(t, h, start)[i].1 in t && t[CandidatesBack(t, h, start)[i].1].height <= t[h].height
    decreases t[h].height
  {
    if t[h].time >= start && t[h].prev.Some? {
      CandidatesKnown(t, t[h].prev.value, start);
    }
  }

  /** Sorting keeps known candidates known and distinct ones distinct. */
  lemma SortKeeps(t: Nodes, q: seq<Candidate>)
    requires AllKnown(t, q) && Distinct(q)
    ensures AllKnown(t, Sort(q)) && Distinct(Sort(q)) && Ordered(Sort(q)) && |Sort(q)| == |q|
  {
    var v := Sort(q);
    SortSorts(q);
    assert |multiset(v)| == |v| && |multiset(q)| == |q|;
    forall i | 0 <= i < |v| ensures v[i].1 in t && t[v[i].1].time == v[i].0 {
      assert v[i] in multiset(v);
      assert v[i] in q;
    }
    forall i, j | 0 <= i < j < |v| ensures v[i].1 != v[j].1 {
      if v[i].1 == v[j].1 {
        assert v[i] == v[j];
        TwiceIn(v, i, j);
        AtMostOnce(q, v[i]);
      }
    }
  }

  lemma {:induction false} AtMostOnce(q: seq<Candidate>, x: Candidate)
    requires Distinct(q)
    ensures multiset(q)[x] <= 1 && (multiset(q)[x] == 1 ==> x in q)
  {
    if q != [] {
      AtMostOnce(q[1..], x);
      assert q == [q[0]] + q[1..];
    }
  }

  // ---------------------------------------------------------------- the rounds

  function SelectedTo(v: seq<Candidate>, picks: seq<nat>, r: nat): set<Hash>
    requires r <= |picks|
  {
    if r == 0 then {}
    else SelectedTo(v, picks, r - 1) + if picks[r - 1] < |v| then {v[picks[r - 1]].1} else {}
  }

  /** What round `r` selects: the best block that no round before it selected. */
  ghost predicate RoundOk(t: Nodes, hash: ProofHash, v: seq<Candidate>, start: int, m: nat, picks: seq<nat>, r: nat) {
    r < |picks| && r < ROUNDS && Best(t, hash, v, SelectedTo(v, picks, r), start + SectionsTo(r + 1), m, picks[r])
  }

  ghost predicate RoundsOk(t: Nodes, hash: ProofHash, v: seq<Candidate>, start: int, m: nat, picks: seq<nat>) {
    forall r :: 0 <= r < |picks| ==> RoundOk(t, hash, v, start, m, picks, r)
  }

  lemma {:induction false} SelectedPrefix(v: seq<Candidate>, picks: seq<nat>, more: seq<nat>, r: nat)
    requires r <= |picks|
    ensures SelectedTo(v, picks + more, r) == SelectedTo(v, picks, r)
  {
    if r > 0 {
      SelectedPrefix(v, picks, more, r - 1);
    }
  }

  lemma RoundsNext(t: Nodes, hash: ProofHash, v: seq<Candidate>, start: int, m: nat, picks: seq<nat>, c: nat)
    requires RoundsOk(t, hash, v, start, m, picks) && |picks| < ROUNDS
    requires Best(t, hash, v, SelectedTo(v, picks, |picks|), start + SectionsTo(|picks| + 1), m, c)
    ensures RoundsOk(t, hash, v, start, m, picks + [c])
    ensures SelectedTo(v, picks + [c], |picks| + 1) == SelectedTo(v, picks, |picks|) + {v[c].1}
  {
    SelectedPrefix(v, picks, [c], |picks|);
    forall r | 0 <= r < |picks| + 1 ensures RoundOk(t, hash, v, start, m, picks + [c], r) {
      if r < |picks| {
        assert RoundOk(t, hash, v, start, m, picks, r);
        SelectedPrefix(v, picks, [c], r);
      }
    }
  }

  lemma {:induction false} SelectedSize(v: seq<Candidate>, picks: seq<nat>, r: nat)
    requires r <= |picks|
    ensures |SelectedTo(v, picks, r)| <= r
  {
    if r > 0 {
      SelectedSize(v, picks, r - 1);
    }
  }

  lemma {:induction false} AllSelected(v: seq<Candidate>, selected: set<Hash>)
    requires Distinct(v) && forall i :: 0 <= i < |v| ==> v[i].1 in selected
    ensures |selected| >= |v|
  {
    if v != [] {
      AllSelected(v[1..], selected - {v[0].1});
    }
  }

  /** As long as fewer rounds than candidates have passed, a candidate is left. */
  lemma SomeLeft(v: seq<Candidate>, picks: seq<nat>)
    requires Distinct(v) && |picks| < |v|
    ensures FirstLeft(v, SelectedTo(v, picks, |picks|)) < |v|
  {
    SelectedSize(v, picks, |picks|);
    if FirstLeft(v, SelectedTo(v, picks, |picks|)) == |v| {
      AllSelected(v, SelectedTo(v, picks, |picks|));
    }
  }

  lemma {:induction false} InSelected(v: seq<Candidate>, picks: seq<nat>, q: nat, r: nat)
    requires q < r <= |picks| && picks[q] < |v|
    ensures v[picks[q]].1 in SelectedTo(v, picks, r)
  {
    if q < r - 1 {
      InSelected(v, picks, q, r - 1);
    }
  }

  /** The rounds select different blocks. */
  lemma PicksDistinct(t: Nodes, hash: ProofHash, v: seq<Candidate>, start: int, m: nat, picks: seq<nat>, q: nat, r: nat)
    requires RoundsOk(t, hash, v, start, m, picks) && q < r < |picks|
    ensures picks[q] < |v| && picks[r] < |v| && v[picks[q]].1 != v[picks[r]].1
  {
    assert RoundOk(t, hash, v, start, m, picks, q) && RoundOk(t, hash, v, start, m, picks, r);
    InSelected(v, picks, q, r);
  }

  // ---------------------------------------------------------------- the bits

  function EntropyAt(t: Nodes, v: seq<Candidate>, c: nat): nat {
    if c < |v| && v[c].1 in t && t[v[c].1].entropy == 1 then 1 else 0
  }

  /** A bit shifted to the left. */
  function Shifted(bit: nat, n: nat): nat {
    if bit == 1 then Power2(n) else 0
  }

  /** The entropy bits of the first `r` picks. Bit `r` is still clear when round `r` sets it, so the
      bitwise or is a sum. */
  function BitsTo(t: Nodes, v: seq<Candidate>, picks: seq<nat>, r: nat): (b: nat)
    requires r <= |picks|
    ensures b < Power2(r)
  {
    if r == 0 then 0 else BitsTo(t, v, picks, r - 1) + Shifted(EntropyAt(t, v, picks[r - 1]), r - 1)
  }

  function Bit(x: nat, r: nat): nat {
    if r == 0 then x % 2 else Bit(x / 2, r - 1)
  }

  lemma {:induction false} BitOfSum(x: nat, e: nat, n: nat, r: nat)
    requires x < Power2(n) && e <= 1
    ensures Bit(x + Shifted(e, n), r) == if r < n then Bit(x, r) else if r == n then e else 0
  {
    if n == 0 {
      if r > 0 {
        ZeroBits(r - 1);
      }
    } else {
      var y := Shifted(e, n - 1);
      assert Shifted(e, n) == 2 * y && (x + 2 * y) / 2 == x / 2 + y && (x + 2 * y) % 2 == x % 2;
      if r > 0 {
        BitOfSum(x / 2, e, n - 1, r - 1);
      }
    }
  }

  lemma {:induction false} ZeroBits(r: nat)
    ensures Bit(0, r) == 0
  {
    if r > 0 {
      ZeroBits(r - 1);
    }
  }

  /** Bit `r` of the modifier is the entropy bit of the block selected in round `r`; bits of rounds
      that did not take place are zero. */
  lemma {:induction false} BitIsEntropy(t: Nodes, v: seq<Candidate>, picks: seq<nat>, n: nat, r: nat)
    requires n <= |picks|
    ensures Bit(BitsTo(t, v, picks, n), r) == if r < n then EntropyAt(t, v, picks[r]) else 0
  {
    if n == 0 {
      ZeroBits(r);
    } else {
      BitIsEntropy(t, v, picks, n - 1, r);
      BitOfSum(BitsTo(t, v, picks, n - 1), EntropyAt(t, v, picks[n - 1]), n - 1, r);
    }
  }

  lemma {:induction false} BitsPrefix(t: Nodes, v: seq<Candidate>, picks: seq<nat>, c: nat, r: nat)
    requires r <= |picks|
    ensures BitsTo(t, v, picks + [c], r) == BitsTo(t, v, picks, r)
  {
    if r > 0 {
      BitsPrefix(t, v, picks, c, r - 1);
    }
  }

  /** One round for every candidate, at most 64, and the bits they give. */
  ghost predicate RoundsGive(t: Nodes, hash: ProofHash, v: seq<Candidate>, start: int, m: nat, bits: nat,
                             picks: seq<nat>) {
    && |picks| == Min(ROUNDS, |v|) && RoundsOk(t, hash, v, start, m, picks)
    && bits == BitsTo(t, v, picks, |picks|)
  }

  /** The rounds of ComputeNextStakeModifier. Every round finds a block. */
  method Rounds(t: Nodes, hash: ProofHash, v: seq<Candidate>, start: int, m: nat)
    returns (ok: bool, bits: nat, ghost picks: seq<nat>)
    requires AllKnown(t, v) && Distinct(v) && Ordered(v)
    ensures ok && RoundsGive(t, hash, v, start, m, bits, picks)
  {
    bits, picks := 0, [];
    var selected, stop, r := {}, start, 0;
    while r < Min(ROUNDS, |v|)
      invariant 0 <= r <= Min(ROUNDS, |v|) && r == |picks| && RoundsOk(t, hash, v, start, m, picks)
      invariant selected == SelectedTo(v, picks, r) && stop == start + SectionsTo(r) && bits == BitsTo(t, v, picks, r)
    {
      stop := stop + Section(r);
      var c := SelectBlockFromCandidates(t, hash, v, selected, stop, m);
      SomeLeft(v, picks);
      RoundsNext(t, hash, v, start, m, picks, c.value);
      BitsPrefix(t, v, picks, c.value, r);
      var x := v[c.value].1;
      bits := bits + Shifted(if t[x].entropy == 1 then 1 else 0, r);
      selected := selected + {x};
      picks := picks + [c.value];
      r := r + 1;
    }
    ok := true;
  }

  // ---------------------------------------------------------------- the modifier of a new block

  function Start(t: Nodes, h: Hash): int
    requires h in t
  {
    t[h].time / MODIFIER_INTERVAL * MODIFIER_INTERVAL - SectionsTo(ROUNDS)
  }

  /** A new modifier over the blocks since the start of the selection interval. */
  ghost predicate NewModifier(t: Nodes, hash: ProofHash, h: Hash, last: nat, modifier: nat, picks: seq<nat>)
    requires Linked(t) && h in t
  {
    RoundsGive(t, hash, Sort(CandidatesBack(t, h, Start(t, h))), Start(t, h), last, modifier, picks)
  }

  /** The modifier after `h`, whose nearest generating block is `g`: the same one until a new interval
      has begun. */
  ghost predicate NextIs(t: Nodes, hash: ProofHash, h: Hash, g: Hash, r: (nat, bool), picks: seq<nat>)
    requires Linked(t) && h in t && g in t
  {
    if t[g].time / MODIFIER_INTERVAL >= t[h].time / MODIFIER_INTERVAL then r == (t[g].modifier, false)
    else r.1 && NewModifier(t, hash, h, t[g].modifier, r.0, picks)
  }

  /** The second half of ComputeNextStakeModifier. */
  method Generate(t: Nodes, hash: ProofHash, h: Hash, last: nat) returns (ok: bool, bits: nat, ghost picks: seq<nat>)
    requires Linked(t) && h in t
    ensures ok && NewModifier(t, hash, h, last, bits, picks)
  {
    var start := StartTime(t, h);
    var v := Candidates(t, h, start);
    ok, bits, picks := Rounds(t, hash, v, start, last);
  }

  method StartTime(t: Nodes, h: Hash) returns (start: int)
    requires h in t
    ensures start == Start(t, h)
  {
    var interval := SelectionInterval();
    start := t[h].time / MODIFIER_INTERVAL * MODIFIER_INTERVAL - interval;
  }

  method Candidates(t: Nodes, h: Hash, start: int) returns (v: seq<Candidate>)
    requires Linked(t) && h in t
    ensures v == Sort(CandidatesBack(t, h, start)) && AllKnown(t, v) && Distinct(v) && Ordered(v)
  {
    var back := Gather(t, h, start);
    CandidatesKnown(t, h, start);
    SortKeeps(t, back);
    v := Sort(back);
  }

  /** ComputeNextStakeModifier: the modifier and whether it is a new one. It fails only where no
      block back to the genesis block has generated a modifier. */
  method ComputeNextStakeModifier(t: Nodes, hash: ProofHash, prev: Option<Hash>)
    returns (r: Option<(nat, bool)>, ghost picks: seq<nat>)
    requires Linked(t) && (prev.Some? ==> prev.value in t)
    ensures prev.None? ==> r == Some((0, true))
    ensures prev.Some? ==> (r.None? <==> Nearest(t, prev.value).None?)
    ensures prev.Some? && r.Some? ==>
      Nearest(t, prev.value).value in t && NextIs(t, hash, prev.value, Nearest(t, prev.value).value, r.value, picks)
  {
    picks := [];
    if prev.None? { return Some((0, true)), []; }
    var h := prev.value;
    var last := GetLastStakeModifier(t, h);
    if last.None? { return None, []; }
    if last.value.1 / MODIFIER_INTERVAL >= t[h].time / MODIFIER_INTERVAL { return Some((last.value.0, false)), []; }
    var ok, bits;
    ok, bits, picks := Generate(t, hash, h, last.value.0);
    if !ok { return None, []; }
    return Some((bits, true)), picks;
  }

  // ---------------------------------------------------------------- recorded modifiers

  /** Every block carries the modifier of its nearest generating ancestor-or-self. */
  ghost predicate ModifiersOk(t: Nodes) {
    Linked(t) && forall h :: h in t ==> CarriesNearest(t, h)
  }

  ghost predicate CarriesNearest(t: Nodes, h: Hash)
    requires Linked(t) && h in t
  {
    Nearest(t, h).Some? && Nearest(t, h).value in t && t[h].modifier == t[Nearest(t, h).value].modifier
  }

  lemma {:induction false} NearestStays(t: Nodes, t': Nodes, h: Hash)
    requires Linked(t) && Linked(t') && h in t && forall x :: x in t ==> x in t' && t'[x] == t[x]
    ensures Nearest(t', h) == Nearest(t, h)
    decreases t[h].height
  {
    if !t[h].generated && t[h].prev.Some? {
      NearestStays(t, t', t[h].prev.value);
    }
  }

  /** The part of AddToBlockIndex that records the modifier of a new block: what ComputeNextStakeModifier
      gives. */
  method AddNode(t: Nodes, hash: ProofHash, h: Hash, n: Node) returns (ok: bool, t': Nodes, ghost picks: seq<nat>)
    requires ModifiersOk(t) && h !in t && (n.prev.Some? ==> n.prev.value in t)
    ensures ok && ModifiersOk(t') && t'.Keys == t.Keys + {h} && forall x :: x in t ==> t'[x] == t[x]
    ensures t'[h].time == n.time && t'[h].prev == n.prev && t'[h].proof == n.proof && t'[h].entropy == n.entropy
    ensures n.prev.None? ==> t'[h].height == 0 && (t'[h].modifier, t'[h].generated) == (0, true)
    ensures n.prev.Some? ==>
      && t'[h].height == t[n.prev.value].height + 1
      && Nearest(t, n.prev.value).Some? && Nearest(t, n.prev.value).value in t
      && NextIs(t, hash, n.prev.value, Nearest(t, n.prev.value).value, (t'[h].modifier, t'[h].generated), picks)
  {
    var r;
    if n.prev.Some? {
      assert CarriesNearest(t, n.prev.value);
    }
    r, picks := ComputeNextStakeModifier(t, hash, n.prev);
    if r.None? { return false, t, []; }
    var height := if n.prev.Some? then t[n.prev.value].height + 1 else 0;
    t' := t[h := n.(height := height, modifier := r.value.0, generated := r.value.1)];
    ok := true;
    NodeAdded(t, t', h);
  }

  lemma NodeAdded(t: Nodes, t': Nodes, h: Hash)
    requires ModifiersOk(t) && h !in t && h in t' && t' == t[h := t'[h]]
    requires t'[h].prev.Some? ==> t'[h].prev.value in t && t'[h].height == t[t'[h].prev.value].height + 1
    requires t'[h].prev.None? ==> t'[h].height == 0 && t'[h].generated
    requires !t'[h].generated && t'[h].prev.Some? ==>
      Nearest(t, t'[h].prev.value).Some? && Nearest(t, t'[h].prev.value).value in t
      && t'[h].modifier == t[Nearest(t, t'[h].prev.value).value].modifier
    ensures ModifiersOk(t')
  {
    assert Linked(t');
    forall x | x in t' ensures CarriesNearest(t', x) {
      if x in t {
        NearestStays(t, t', x);
        assert CarriesNearest(t, x);
      } else if t'[h].prev.Some? {
        NearestStays(t, t', t'[h].prev.value);
      }
    }
  }
}
