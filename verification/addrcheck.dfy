/** The consistency test of the address manager (Check_ in src/addrman.cpp): exactly which states pass,
    and what the invariant of AddrTables demands beyond it. */
module AddrCheck {
  import opened Transactions
  import opened AddrTables
  import opened Ordering

  // ---------------------------------------------------------------- what the test means

  /** mapAddr[info]: a missing address reads as id 0, which changes no later lookup. */
  function Look(byAddr: map<NetAddr, Id>, a: NetAddr): Id {
    if a in byAddr then byAddr[a] else 0
  }

  /** The tests on one entry. */
  predicate EntryOk(s: Tables, n: Id)
    requires n in s.infos
  {
    var info := s.infos[n];
    && (if info.inTried then info.lastSuccess != 0 && info.refCount == 0
        else 1 <= info.refCount <= NEW_BUCKETS_PER_ADDRESS)
    && Look(s.byAddr, info.address.service.addr) == n
    && 0 <= info.randomPos < |s.random| && s.random[info.randomPos] == n
    && info.lastTry >= 0 && info.lastSuccess >= 0
  }

  /** How often an id occurs in the tried buckets. */
  ghost function TriedCount(tried: seq<seq<Id>>, n: Id): nat {
    if tried == [] then 0
    else TriedCount(tried[..|tried| - 1], n) + multiset(tried[|tried| - 1])[n]
  }

  /** Every tried entry occurs once in the tried buckets, and nothing else does. */
  ghost predicate TriedOnce(ids: set<Id>, tried: seq<seq<Id>>) {
    forall n: Id :: TriedCount(tried, n) == if n in ids then 1 else 0
  }

  /** Every new entry lies in as many new buckets as it counts, and nothing else does. */
  ghost predicate CountsMatch(counts: map<Id, int>, buckets: seq<set<Id>>) {
    forall n: Id :: RefCount(buckets, n) == if n in counts then counts[n] else 0
  }

  ghost function Counts(infos: Infos): map<Id, int> {
    map n | n in infos && !infos[n].inTried :: infos[n].refCount
  }

  ghost predicate CheckOk(s: Tables) {
    && |s.random| == s.nTried + s.nNew
    && (forall n :: n in s.infos ==> EntryOk(s, n))
    && TotalsOk(s.infos, s.nTried, s.nNew)
    && TriedOnce(TriedIds(s.infos), s.tried)
    && CountsMatch(Counts(s.infos), s.buckets)
  }

  // ---------------------------------------------------------------- the walk over mapInfo

  /** The first loop: stops at the first bad entry, and sorts the others into tried and new. */
  method Walk(s: Tables) returns (ok: bool, triedIds: set<Id>, counts: map<Id, int>)
    ensures ok <==> forall n :: n in s.infos ==> EntryOk(s, n)
    ensures ok ==> triedIds == TriedIds(s.infos) && counts == Counts(s.infos)
  {
    var order := Ascending(s.infos.Keys);
    AscendingLists(s.infos.Keys);
    triedIds, counts := {}, map[];
    var i := 0;
    ghost var done := {};
    assert counts == CountsAmong(s.infos, {});
    while i < |order|
      invariant i <= |order| && done <= s.infos.Keys
      invariant forall j :: 0 <= j < i ==> order[j] in done
      invariant forall n :: n in done ==> EntryOk(s, n)
      invariant triedIds == TriedAmong(s.infos, done) && counts == CountsAmong(s.infos, done)
    {
      var n := order[i];
      assert n in order;
      if !EntryOk(s, n) { return false, triedIds, counts; }
      SortNext(s.infos, done, n);
      if s.infos[n].inTried {
        triedIds := triedIds + {n};
      } else {
        counts := counts[n := s.infos[n].refCount];
      }
      done := done + {n};
      i := i + 1;
    }
    ok := true;
    AllDone(s.infos, order, done);
  }

  ghost function TriedAmong(infos: Infos, done: set<Id>): set<Id> {
    set n | n in done && n in infos && infos[n].inTried
  }

  ghost function CountsAmong(infos: Infos, done: set<Id>): map<Id, int> {
    map n | n in done && n in infos && !infos[n].inTried :: infos[n].refCount
  }

  lemma SortNext(infos: Infos, done: set<Id>, n: Id)
    requires n in infos
    ensures TriedAmong(infos, done + {n}) == TriedAmong(infos, done) + if infos[n].inTried then {n} else {}
    ensures CountsAmong(infos, done + {n})
            == if infos[n].inTried then CountsAmong(infos, done) else CountsAmong(infos, done)[n := infos[n].refCount]
  {
  }

  lemma AllDone(infos: Infos, order: seq<Id>, done: set<Id>)
    requires (forall n :: n in infos ==> n in order) && done <= infos.Keys
    requires forall j :: 0 <= j < |order| ==> order[j] in done
    ensures done == infos.Keys && TriedAmong(infos, done) == TriedIds(infos)
      && CountsAmong(infos, done) == Counts(infos)
  {
    forall n | n in infos ensures n in done {
      assert n in order;
    }
    assert done == infos.Keys;
  }

  // ---------------------------------------------------------------- the tried buckets

  /** One tried bucket: every entry must still be in the set, and is taken out of it. */
  method TakeTried(ids: set<Id>, bucket: seq<Id>) returns (ok: bool, left: set<Id>)
    ensures ok <==> forall n: Id :: multiset(bucket)[n] <= if n in ids then 1 else 0
    ensures ok ==> forall n: Id :: n in left <==> n in ids && multiset(bucket)[n] == 0
  {
    left := ids;
    var i := 0;
    while i < |bucket|
      invariant i <= |bucket|
      invariant forall n: Id :: multiset(bucket[..i])[n] <= if n in ids then 1 else 0
      invariant forall n: Id :: n in left <==> n in ids && multiset(bucket[..i])[n] == 0
    {
      assert bucket[..i + 1] == bucket[..i] + [bucket[i]];
      if bucket[i] !in left {
        PrefixMultiset(bucket, i + 1, bucket[i]);
        return false, left;
      }
      left := left - {bucket[i]};
      i := i + 1;
    }
    assert bucket[..i] == bucket;
    ok := true;
  }

  lemma PrefixMultiset(q: seq<Id>, i: nat, n: Id)
    requires i <= |q|
    ensures multiset(q[..i])[n] <= multiset(q)[n]
  {
    assert q == q[..i] + q[i..];
  }

  lemma TriedCountNext(tried: seq<seq<Id>>, b: nat, n: Id)
    requires b < |tried|
    ensures TriedCount(tried[..b + 1], n) == TriedCount(tried[..b], n) + multiset(tried[b])[n]
  {
    assert tried[..b + 1][..b] == tried[..b];
  }

  lemma {:induction false} TriedCountGrows(tried: seq<seq<Id>>, b: nat, n: Id)
    requires b <= |tried|
    ensures TriedCount(tried[..b], n) <= TriedCount(tried, n)
    decreases |tried| - b
  {
    if b < |tried| {
      TriedCountNext(tried, b, n);
      TriedCountGrows(tried, b + 1, n);
    } else {
      assert tried[..b] == tried;
    }
  }

  /** The tried half of Check_. */
  method CheckTried(ids: set<Id>, tried: seq<seq<Id>>) returns (ok: bool)
    ensures ok <==> TriedOnce(ids, tried)
  {
    var left, b := ids, 0;
    while b < |tried|
      invariant b <= |tried|
      invariant forall n: Id :: TriedCount(tried[..b], n) == if n in ids && n !in left then 1 else 0
      invariant left <= ids
    {
      var fits, rest := TakeTried(left, tried[b]);
      forall n: Id ensures TriedCount(tried[..b + 1], n) == TriedCount(tried[..b], n) + multiset(tried[b])[n] {
        TriedCountNext(tried, b, n);
      }
      if !fits {
        var n: Id :| multiset(tried[b])[n] > if n in left then 1 else 0;
        TriedCountGrows(tried, b + 1, n);
        return false;
      }
      assert forall n :: n in rest ==> n in ids;
      left := rest;
      b := b + 1;
    }
    assert tried[..b] == tried;
    ok := left == {};
    if !ok {
      ghost var n := Pick(left);
      assert TriedCount(tried, n) == 0;
    }
  }

  // ---------------------------------------------------------------- the new buckets

  /** What is left to count after a bucket: entries counted down to zero are gone. */
  function TakenOnce(counts: map<Id, int>, bucket: set<Id>): map<Id, int> {
    map n | n in counts && (n !in bucket || counts[n] != 1) :: if n in bucket then counts[n] - 1 else counts[n]
  }

  /** One new bucket: every entry must have something left to count. */
  method TakeNew(counts: map<Id, int>, bucket: set<Id>) returns (ok: bool, left: map<Id, int>, ghost bad: Id)
    ensures ok <==> bucket <= counts.Keys
    ensures !ok ==> bad in bucket && bad !in counts
    ensures ok ==> left == TakenOnce(counts, bucket)
  {
    var order := Ascending(bucket);
    AscendingLists(bucket);
    left := counts;
    var i := 0;
    assert left == TakenOnce(counts, {});
    while i < |order|
      invariant i <= |order| && forall n :: n in order[..i] ==> n in counts
      invariant left == TakenOnce(counts, Members(order[..i]))
    {
      var n := order[i];
      assert n in order && order[..i + 1] == order[..i] + [n];
      if n !in left {
        assert n !in counts;
        return false, left, n;
      }
      var c := left[n] - 1;
      left := if c == 0 then left - {n} else left[n := c];
      TakeOneMore(counts, Members(order[..i]), n);
      assert Members(order[..i + 1]) == Members(order[..i]) + {n};
      i := i + 1;
    }
    assert order[..i] == order;
    assert Members(order) == bucket;
    ok, bad := true, 0;
  }

  lemma TakeOneMore(counts: map<Id, int>, seen: set<Id>, n: Id)
    requires n in counts && n !in seen
    ensures var left := TakenOnce(counts, seen);
            TakenOnce(counts, seen + {n}) == if counts[n] == 1 then left - {n} else left[n := counts[n] - 1]
  {
  }

  /** What the map holds after the first buckets. */
  ghost predicate LeftToCount(counts: map<Id, int>, left: map<Id, int>, buckets: seq<set<Id>>) {
    && left.Keys <= counts.Keys
    && (forall n :: n in left ==> left[n] == counts[n] - RefCount(buckets, n) && left[n] >= 1)
    && (forall n: Id :: n !in left ==> RefCount(buckets, n) == if n in counts then counts[n] else 0)
  }

  lemma CountNext(counts: map<Id, int>, left: map<Id, int>, buckets: seq<set<Id>>, b: nat)
    requires b < |buckets| && LeftToCount(counts, left, buckets[..b]) && buckets[b] <= left.Keys
    ensures LeftToCount(counts, TakenOnce(left, buckets[b]), buckets[..b + 1])
  {
    forall n: Id ensures RefCount(buckets[..b + 1], n) == RefCount(buckets[..b], n) + if n in buckets[b] then 1 else 0 {
      RefCountPrefix(buckets, n, b);
    }
  }

  /** The new half of Check_. */
  method CheckNew(counts: map<Id, int>, buckets: seq<set<Id>>) returns (ok: bool)
    requires forall n :: n in counts ==> counts[n] >= 1
    ensures ok <==> CountsMatch(counts, buckets)
  {
    var left, b := counts, 0;
    while b < |buckets|
      invariant b <= |buckets| && LeftToCount(counts, left, buckets[..b])
    {
      var fits, rest;
      ghost var bad;
      fits, rest, bad := TakeNew(left, buckets[b]);
      if !fits {
        RefCountPrefix(buckets, bad, b);
        RefCountGrows(buckets, b + 1, bad);
        return false;
      }
      CountNext(counts, left, buckets, b);
      left := rest;
      b := b + 1;
    }
    assert buckets[..b] == buckets;
    ok := left == map[];
    if !ok {
      assert left.Keys != {};
      ghost var n := Pick(left.Keys);
      assert RefCount(buckets, n) != counts[n];
    }
  }

  /** Check_: passes exactly the states that CheckOk describes. */
  method Check(s: Tables) returns (ok: bool)
    ensures ok <==> CheckOk(s)
  {
    if |s.random| != s.nTried + s.nNew { return false; }
    var entries, triedIds, counts := Walk(s);
    if !entries { return false; }
    AllCounted(s.infos, counts);
    if |triedIds| != s.nTried || |counts| != s.nNew { return false; }
    var triedFit := CheckTried(triedIds, s.tried);
    if !triedFit { return false; }
    ok := CheckNew(counts, s.buckets);
  }

  lemma AllCounted(infos: Infos, counts: map<Id, int>)
    requires counts == Counts(infos)
    ensures |counts| == |NewIds(infos)|
  {
    assert counts.Keys == NewIds(infos);
    assert |counts| == |counts.Keys|;
  }

  // ---------------------------------------------------------------- Check_ and the invariant

  /** What the invariant demands and Check_ does not test: the numbers and sizes of buckets, the place
      of tried entries, no stale addresses, and ids below the next one. */
  ghost predicate Beyond(k: Hashing, s: Tables) {
    && |s.tried| == TRIED_BUCKET_COUNT && |s.buckets| == NEW_BUCKET_COUNT
    && (forall b :: 0 <= b < |s.tried| ==> |s.tried[b]| <= TRIED_BUCKET_SIZE)
    && (forall b :: 0 <= b < |s.buckets| ==> |s.buckets[b]| <= NEW_BUCKET_SIZE)
    && (forall b, i :: 0 <= b < |s.tried| && 0 <= i < |s.tried[b]| && s.tried[b][i] in s.infos ==>
          k.triedBucket(s.infos[s.tried[b][i]].address.service) == b)
    && (forall a :: a in s.byAddr ==> s.byAddr[a] in s.infos && s.infos[s.byAddr[a]].address.service.addr == a)
    && (forall n :: n in s.infos ==> s.infos[n].address.service.addr in s.byAddr)
    && s.idCount >= 0 && (forall n :: n in s.infos ==> 0 <= n < s.idCount)
  }

  /** The invariant is what Check_ tests together with what it does not test. */
  lemma InvariantIsCheckAndMore(k: Hashing, s: Tables)
    requires HashingOk(k)
    ensures Inv(k, s, NONE) <==> CheckOk(s) && Beyond(k, s)
  {
    if Inv(k, s, NONE) {
      InvChecks(k, s);
      InvBeyond(k, s);
    }
    if CheckOk(s) && Beyond(k, s) {
      ChecksGiveInv(k, s);
    }
  }

  lemma InvBeyond(k: Hashing, s: Tables)
    requires Inv(k, s, NONE)
    ensures Beyond(k, s)
  {
    assert forall b :: 0 <= b < |s.tried| ==> BucketOk(k, s.infos, s.tried[b], b);
    assert forall b :: 0 <= b < |s.buckets| ==> NewBucketOk(s.infos, s.buckets[b]);
  }

  lemma InvChecks(k: Hashing, s: Tables)
    requires Inv(k, s, NONE)
    ensures CheckOk(s)
  {
    forall n | n in s.infos ensures EntryOk(s, n) {
      assert CountOk(s.infos[n], RefCount(s.buckets, n) + if n == NONE then 1 else 0);
    }
    SplitIds(s.infos);
    forall n: Id ensures TriedCount(s.tried, n) == if n in TriedIds(s.infos) then 1 else 0 {
      InvTriedCount(k, s.infos, s.tried, n, |s.tried|);
      assert s.tried[..|s.tried|] == s.tried;
    }
    forall n: Id ensures RefCount(s.buckets, n) == if n in Counts(s.infos) then Counts(s.infos)[n] else 0 {
      if n in s.infos {
        assert CountOk(s.infos[n], RefCount(s.buckets, n) + if n == NONE then 1 else 0);
      } else {
        UnknownUncounted(s.infos, s.buckets, NONE, n);
      }
    }
  }

  lemma SplitIds(infos: Infos)
    ensures |infos| == |TriedIds(infos)| + |NewIds(infos)|
  {
    assert infos.Keys == TriedIds(infos) + NewIds(infos);
    assert TriedIds(infos) !! NewIds(infos);
    assert |infos| == |infos.Keys|;
  }

  /** In the first `b` tried buckets an entry occurs once if it is tried and its bucket is among them. */
  lemma {:induction false} InvTriedCount(k: Hashing, infos: Infos, tried: seq<seq<Id>>, n: Id, b: nat)
    requires TriedOk(k, infos, tried) && b <= |tried|
    ensures TriedCount(tried[..b], n)
            == if n in infos && infos[n].inTried && k.triedBucket(infos[n].address.service) < b then 1 else 0
  {
    if b > 0 {
      InvTriedCount(k, infos, tried, n, b - 1);
      TriedCountNext(tried, b - 1, n);
      assert BucketOk(k, infos, tried[b - 1], b - 1);
      OnceIn(tried[b - 1], n);
      if n in infos && infos[n].inTried {
        assert Placed(k, infos, tried, n);
      }
    }
  }

  lemma {:induction false} OnceIn(bucket: seq<Id>, n: Id)
    requires forall i, j :: 0 <= i < j < |bucket| ==> bucket[i] != bucket[j]
    ensures multiset(bucket)[n] == if n in bucket then 1 else 0
  {
    if bucket != [] {
      var last := |bucket| - 1;
      OnceIn(bucket[..last], n);
      assert bucket == bucket[..last] + [bucket[last]];
    }
  }

  lemma ChecksGiveInv(k: Hashing, s: Tables)
    requires HashingOk(k) && CheckOk(s) && Beyond(k, s)
    ensures Inv(k, s, NONE)
  {
    ChecksGiveRandom(s);
    ChecksGiveTried(k, s);
    ChecksGiveNew(s);
    assert forall n :: n in s.infos ==> EntryOk(s, n);
  }

  lemma ChecksGiveRandom(s: Tables)
    requires CheckOk(s)
    ensures RandomOk(s.infos, s.random)
  {
    SplitIds(s.infos);
    assert forall n :: n in s.infos ==> EntryOk(s, n);
    var used := set n | n in s.infos :: s.infos[n].randomPos;
    SameSize(s.infos, s.random, s.infos.Keys);
    assert used == set n | n in s.infos.Keys && n in s.infos :: s.infos[n].randomPos;
    forall i | 0 <= i < |s.random| ensures s.random[i] in s.infos && s.infos[s.random[i]].randomPos == i {
      AllUsed(used, |s.random|, i);
      var n :| n in s.infos && s.infos[n].randomPos == i;
    }
  }

  /** Entries at their own positions have as many positions as there are entries. */
  lemma {:induction false} SameSize(infos: Infos, random: seq<Id>, ids: set<Id>)
    requires ids <= infos.Keys
    requires forall n :: n in infos ==> 0 <= infos[n].randomPos < |random| && random[infos[n].randomPos] == n
    ensures |set n | n in ids && n in infos :: infos[n].randomPos| == |ids|
  {
    if ids != {} {
      var m := Pick(ids);
      SameSize(infos, random, ids - {m});
      var rest := set n | n in ids - {m} && n in infos :: infos[n].randomPos;
      assert (set n | n in ids && n in infos :: infos[n].randomPos) == rest + {infos[m].randomPos};
      assert infos[m].randomPos !in rest;
    }
  }

  /** A set of `size` positions below `size` holds all of them. */
  lemma {:induction false} AllUsed(used: set<int>, size: nat, i: nat)
    requires |used| == size && i < size && forall j :: j in used ==> 0 <= j < size
    ensures i in used
  {
    if i !in used {
      var rest := used - {size - 1};
      if size - 1 in used {
        assert |rest| == size - 1;
        assert i < size - 1;
        AllUsed(rest, size - 1, i);
      } else {
        FewerBelow(used, size - 1);
      }
    }
  }

  lemma {:induction false} FewerBelow(used: set<int>, size: nat)
    requires forall j :: j in used ==> 0 <= j < size
    ensures |used| <= size
  {
    if size > 0 {
      FewerBelow(used - {size - 1}, size - 1);
      SmallerSet(used, size - 1);
    } else {
      if used != {} {
        var j := Pick(used);
        assert false;
      }
    }
  }

  lemma ChecksGiveTried(k: Hashing, s: Tables)
    requires CheckOk(s) && Beyond(k, s) && HashingOk(k)
    ensures TriedOk(k, s.infos, s.tried)
  {
    forall b | 0 <= b < |s.tried| ensures BucketOk(k, s.infos, s.tried[b], b) {
      ChecksGiveBucket(k, s, b);
    }
    forall n | n in s.infos && s.infos[n].inTried ensures Placed(k, s.infos, s.tried, n) {
      assert TriedCount(s.tried, n) == 1;
      var b := Somewhere(s.tried, n);
      var i :| 0 <= i < |s.tried[b]| && s.tried[b][i] == n;
      assert k.triedBucket(s.infos[s.tried[b][i]].address.service) == b;
    }
  }

  lemma {:induction false} Somewhere(tried: seq<seq<Id>>, n: Id) returns (b: nat)
    requires TriedCount(tried, n) > 0
    ensures b < |tried| && n in tried[b]
  {
    var last := |tried| - 1;
    if multiset(tried[last])[n] > 0 {
      assert n in multiset(tried[last]);
      return last;
    }
    b := Somewhere(tried[..last], n);
  }

  lemma InBucketAtMost(tried: seq<seq<Id>>, b: nat, n: Id)
    requires b < |tried|
    ensures multiset(tried[b])[n] <= TriedCount(tried, n)
  {
    TriedCountNext(tried, b, n);
    TriedCountGrows(tried, b + 1, n);
  }

  lemma ChecksGiveBucket(k: Hashing, s: Tables, b: nat)
    requires CheckOk(s) && Beyond(k, s) && b < |s.tried|
    ensures BucketOk(k, s.infos, s.tried[b], b)
  {
    var bucket := s.tried[b];
    forall i | 0 <= i < |bucket| ensures bucket[i] in TriedIds(s.infos) {
      assert multiset(bucket)[bucket[i]] > 0;
      InBucketAtMost(s.tried, b, bucket[i]);
    }
    forall i, j | 0 <= i < j < |bucket| ensures bucket[i] != bucket[j] {
      InBucketAtMost(s.tried, b, bucket[i]);
      if bucket[i] == bucket[j] {
        TwiceIn(bucket, i, j);
      }
    }
  }

  lemma ChecksGiveNew(s: Tables)
    requires CheckOk(s) && |s.buckets| == NEW_BUCKET_COUNT
    requires forall b :: 0 <= b < |s.buckets| ==> |s.buckets[b]| <= NEW_BUCKET_SIZE
    requires forall n :: n in s.infos ==> 0 <= n
    ensures NewOk(s.infos, s.buckets, NONE)
  {
    forall b | 0 <= b < |s.buckets| ensures NewBucketOk(s.infos, s.buckets[b]) {
      forall n | n in s.buckets[b] ensures n in NewIds(s.infos) {
        InBucketCounts(s.buckets, b, n);
      }
    }
    forall n | n in s.infos ensures CountOk(s.infos[n], RefCount(s.buckets, n) + if n == NONE then 1 else 0) {
      assert EntryOk(s, n);
      assert RefCount(s.buckets, n) == if n in Counts(s.infos) then Counts(s.infos)[n] else 0;
    }
  }
}
