/** The reader of the address manager's file, and the round trip through the file. */
module AddrLoad {
  import opened Transactions
  import opened AddrTables
  import opened Ordering
  import opened AddrFile

  // ---------------------------------------------------------------- what the reader builds

  /** The entries of the first `n` records, not yet counted in any new bucket. */
  function InfosTo(all: seq<Record>, news: nat, n: nat): Infos
    requires n <= |all|
  {
    if n == 0 then map[]
    else InfosTo(all, news, n - 1)[n - 1 := Restored(all[n - 1], n - 1, n - 1 >= news, 0)]
  }

  function ByAddrTo(all: seq<Record>, n: nat): map<NetAddr, Id>
    requires n <= |all|
  {
    if n == 0 then map[] else ByAddrTo(all, n - 1)[all[n - 1].address.service.addr := n - 1]
  }

  function RandomTo(n: nat): (r: seq<Id>)
    ensures |r| == n && forall i :: 0 <= i < n ==> r[i] == i
  {
    if n == 0 then [] else RandomTo(n - 1) + [n - 1]
  }

  /** The tried buckets after the first `n` tried records, which get the ids from `base` on. */
  function TriedTo(k: Hashing, trieds: seq<Record>, base: nat, n: nat): (r: seq<seq<Id>>)
    requires n <= |trieds|
    ensures |r| == TRIED_BUCKET_COUNT
  {
    if n == 0 then seq(TRIED_BUCKET_COUNT, _ => [])
    else
      var r, kb := TriedTo(k, trieds, base, n - 1), k.triedBucket(trieds[n - 1].address.service);
      if kb < TRIED_BUCKET_COUNT then r[kb := r[kb] + [base + n - 1]] else r
  }

  /** One more reference for every entry of a bucket. */
  function Bumped(infos: Infos, bucket: set<Id>): Infos {
    map n | n in infos :: if n in bucket then infos[n].(refCount := infos[n].refCount + 1) else infos[n]
  }

  function CountedTo(infos: Infos, buckets: seq<set<Id>>, b: nat): Infos
    requires b <= |buckets|
  {
    if b == 0 then infos else Bumped(CountedTo(infos, buckets, b - 1), buckets[b - 1])
  }

  function BucketsOf(indexes: seq<seq<int>>): seq<set<Id>> {
    seq(|indexes|, b requires 0 <= b < |indexes| => Members(indexes[b]))
  }

  function Rebuilt(k: Hashing, f: File): Tables {
    var all, buckets := f.news + f.trieds, BucketsOf(f.indexes);
    Tables(|all|, CountedTo(InfosTo(all, |f.news|, |all|), buckets, |buckets|), ByAddrTo(all, |all|), RandomTo(|all|),
           f.nTried, TriedTo(k, f.trieds, |f.news|, |f.trieds|), f.nNew, buckets)
  }

  /** The lists are as long as the counts that precede them. */
  predicate Shaped(f: File) {
    |f.news| == f.nNew && |f.trieds| == f.nTried && |f.indexes| == f.bucketCount
  }

  /** No tried bucket overflows. */
  ghost predicate Fits(k: Hashing, trieds: seq<Record>, base: nat) {
    forall n :: 0 <= n < |trieds| ==> RoomAt(k, trieds, base, n)
  }

  ghost predicate RoomAt(k: Hashing, trieds: seq<Record>, base: nat, n: nat)
    requires n < |trieds|
  {
    var kb := k.triedBucket(trieds[n].address.service);
    kb < TRIED_BUCKET_COUNT && |TriedTo(k, trieds, base, n)[kb]| < TRIED_BUCKET_SIZE
  }

  /** The indexes of every bucket are distinct and name new entries, each in at most four buckets. */
  ghost predicate IndexesFit(f: File) {
    && (forall b :: 0 <= b < |f.indexes| ==>
      NoRepeat(f.indexes[b]) && Members(f.indexes[b]) <= Members(RandomTo(|f.news|)))
    && (forall i: Id :: RefCount(BucketsOf(f.indexes), i) <= NEW_BUCKETS_PER_ADDRESS)
  }

  ghost predicate FileOk(k: Hashing, f: File) {
    Shaped(f) && f.bucketCount == NEW_BUCKET_COUNT && Fits(k, f.trieds, |f.news|) && IndexesFit(f)
  }

  // ---------------------------------------------------------------- the reader

  /** The first loop of the reader; with another number of buckets, entries are put into one afresh. */
  method ReadNew(k: Hashing, f: File)
    returns (infos: Infos, byAddr: map<NetAddr, Id>, random: seq<Id>, buckets: seq<set<Id>>)
    requires HashingOk(k) && Shaped(f)
    ensures random == RandomTo(|f.news|) && byAddr == ByAddrTo(f.news + f.trieds, |f.news|)
    ensures |buckets| == NEW_BUCKET_COUNT
    ensures f.bucketCount == NEW_BUCKET_COUNT ==>
      infos == InfosTo(f.news + f.trieds, |f.news|, |f.news|) && forall b :: 0 <= b < |buckets| ==> buckets[b] == {}
  {
    ghost var all := f.news + f.trieds;
    infos, byAddr, random, buckets := map[], map[], [], seq(NEW_BUCKET_COUNT, _ => {});
    var n: nat := 0;
    while n < f.nNew
      invariant n <= |f.news| && random == RandomTo(n) && byAddr == ByAddrTo(all, n) && |buckets| == NEW_BUCKET_COUNT
      invariant f.bucketCount == NEW_BUCKET_COUNT ==>
        infos == InfosTo(all, |f.news|, n) && forall b :: 0 <= b < |buckets| ==> buckets[b] == {}
    {
      assert all[n] == f.news[n];
      infos := infos[n := Restored(f.news[n], |random|, false, 0)];
      byAddr := byAddr[f.news[n].address.service.addr := n];
      random := random + [n];
      if f.bucketCount != NEW_BUCKET_COUNT {
        var b := k.newBucket(f.news[n].address.service, f.news[n].source);
        buckets := buckets[b := buckets[b] + {n}];
        infos := infos[n := infos[n].(refCount := infos[n].refCount + 1)];
      }
      n := n + 1;
    }
  }

  /** The second loop of the reader: a tried entry whose bucket is full is lost. */
  method ReadTried(k: Hashing, f: File, infos0: Infos, byAddr0: map<NetAddr, Id>, random0: seq<Id>)
    returns (infos: Infos, byAddr: map<NetAddr, Id>, random: seq<Id>, tried: seq<seq<Id>>, idCount: nat, lost: nat)
    requires HashingOk(k) && Shaped(f)
    ensures FileOk(k, f) && infos0 == InfosTo(f.news + f.trieds, |f.news|, |f.news|)
            && byAddr0 == ByAddrTo(f.news + f.trieds, |f.news|) && random0 == RandomTo(|f.news|)
      ==> var all := f.news + f.trieds;
          && lost == 0 && idCount == |all| && infos == InfosTo(all, |f.news|, |all|) && byAddr == ByAddrTo(all, |all|)
          && random == RandomTo(|all|) && tried == TriedTo(k, f.trieds, |f.news|, |f.trieds|)
  {
    ghost var all := f.news + f.trieds;
    ghost var good := FileOk(k, f) && infos0 == InfosTo(all, |f.news|, |f.news|)
            && byAddr0 == ByAddrTo(all, |f.news|) && random0 == RandomTo(|f.news|);
    infos, byAddr, random, lost, idCount := infos0, byAddr0, random0, 0, f.nNew;
    tried := seq(TRIED_BUCKET_COUNT, _ => []);
    var n: nat := 0;
    while n < f.nTried
      invariant n <= |f.trieds| && |tried| == TRIED_BUCKET_COUNT
      invariant good ==> lost == 0 && idCount == |f.news| + n && infos == InfosTo(all, |f.news|, |f.news| + n)
      invariant good ==> byAddr == ByAddrTo(all, |f.news| + n) && random == RandomTo(|f.news| + n)
      invariant good ==> tried == TriedTo(k, f.trieds, |f.news|, n)
    {
      var r := f.trieds[n];
      var kb := k.triedBucket(r.address.service);
      assert good ==> all[|f.news| + n] == r && RoomAt(k, f.trieds, |f.news|, n);
      if |tried[kb]| < TRIED_BUCKET_SIZE {
        infos := infos[idCount := Restored(r, |random|, true, 0)];
        random := random + [idCount];
        byAddr := byAddr[r.address.service.addr := idCount];
        tried := tried[kb := tried[kb] + [idCount]];
        idCount := idCount + 1;
      } else {
        lost := lost + 1;
      }
      n := n + 1;
    }
  }

  /** One bucket of the last loop of the reader. */
  method ReadBucket(infos0: Infos, indexes: seq<int>, fixed: bool) returns (infos: Infos, bucket: set<Id>)
    ensures fixed && NoRepeat(indexes)
      && (forall n :: n in indexes ==> n in infos0 && infos0[n].refCount < NEW_BUCKETS_PER_ADDRESS)
      ==> infos == Bumped(infos0, Members(indexes)) && bucket == Members(indexes)
    ensures !fixed ==> bucket == {}
  {
    ghost var good := fixed && NoRepeat(indexes)
      && forall n :: n in indexes ==> n in infos0 && infos0[n].refCount < NEW_BUCKETS_PER_ADDRESS;
    infos, bucket := infos0, {};
    var j := 0;
    assert Bumped(infos0, {}) == infos0 && Members(indexes[..0]) == {};
    while j < |indexes|
      invariant j <= |indexes| && (!fixed ==> bucket == {})
      invariant good ==> infos == Bumped(infos0, Members(indexes[..j])) && bucket == Members(indexes[..j])
    {
      var n := indexes[j];
      assert n in indexes;
      if good {
        BumpOne(infos0, indexes, j);
      }
      if n !in infos {
        infos := infos[n := BlankInfo()];
      }
      if fixed && infos[n].refCount < NEW_BUCKETS_PER_ADDRESS {
        infos := infos[n := infos[n].(refCount := infos[n].refCount + 1)];
        bucket := bucket + {n};
      }
      j := j + 1;
    }
    assert indexes[..j] == indexes;
  }

  lemma BumpOne(infos: Infos, indexes: seq<int>, j: nat)
    requires NoRepeat(indexes) && j < |indexes| && indexes[j] in infos
    ensures Members(indexes[..j + 1]) == Members(indexes[..j]) + {indexes[j]} && indexes[j] !in Members(indexes[..j])
    ensures var done := Bumped(infos, Members(indexes[..j]));
            indexes[j] in done && done[indexes[j]] == infos[indexes[j]]
              && Bumped(infos, Members(indexes[..j + 1]))
                 == done[indexes[j] := infos[indexes[j]].(refCount := infos[indexes[j]].refCount + 1)]
  {
    assert indexes[..j + 1] == indexes[..j] + [indexes[j]];
  }

  lemma {:induction false} CountedAt(infos: Infos, buckets: seq<set<Id>>, b: nat, n: Id)
    requires b <= |buckets|
    ensures CountedTo(infos, buckets, b).Keys == infos.Keys
    ensures n in infos ==>
      CountedTo(infos, buckets, b)[n] == infos[n].(refCount := infos[n].refCount + RefCount(buckets[..b], n))
  {
    if b > 0 {
      CountedAt(infos, buckets, b - 1, n);
      RefCountPrefix(buckets, n, b - 1);
    }
  }

  lemma {:induction false} InfosAt(all: seq<Record>, news: nat, n: nat, i: Id)
    requires n <= |all|
    ensures i in InfosTo(all, news, n) <==> 0 <= i < n
    ensures 0 <= i < n ==> InfosTo(all, news, n)[i] == Restored(all[i], i, i >= news, 0)
  {
    if n > 0 {
      InfosAt(all, news, n - 1, i);
    }
  }

  /** No reference of a good file is refused. */
  lemma RoomForReference(f: File, infos: Infos, b: nat, n: Id)
    requires IndexesFit(f) && b < |f.indexes| && n in f.indexes[b]
    requires infos == InfosTo(f.news + f.trieds, |f.news|, |f.news| + |f.trieds|)
    ensures var mid := CountedTo(infos, BucketsOf(f.indexes), b); n in mid && mid[n].refCount < NEW_BUCKETS_PER_ADDRESS
  {
    var buckets := BucketsOf(f.indexes);
    assert n in Members(f.indexes[b]) && n in Members(RandomTo(|f.news|));
    InfosAt(f.news + f.trieds, |f.news|, |f.news| + |f.trieds|, n);
    CountedAt(infos, buckets, b, n);
    RefCountPrefix(buckets, n, b);
    RefCountGrows(buckets, b + 1, n);
  }

  /** The last loop of the reader. */
  method ReadBuckets(ghost k: Hashing, f: File, infos0: Infos, buckets0: seq<set<Id>>)
    returns (infos: Infos, buckets: seq<set<Id>>)
    requires Shaped(f) && |buckets0| == NEW_BUCKET_COUNT
    requires f.bucketCount == NEW_BUCKET_COUNT ==> forall b :: 0 <= b < |buckets0| ==> buckets0[b] == {}
    ensures FileOk(k, f) && infos0 == InfosTo(f.news + f.trieds, |f.news|, |f.news| + |f.trieds|)
      ==> infos == CountedTo(infos0, BucketsOf(f.indexes), |f.indexes|) && buckets == BucketsOf(f.indexes)
  {
    ghost var good := FileOk(k, f) && infos0 == InfosTo(f.news + f.trieds, |f.news|, |f.news| + |f.trieds|);
    ghost var target := BucketsOf(f.indexes);
    infos, buckets := infos0, buckets0;
    var b := 0;
    while b < f.bucketCount
      invariant 0 <= b <= |f.indexes| && |buckets| == NEW_BUCKET_COUNT
      invariant good ==> infos == CountedTo(infos0, target, b)
      invariant good ==> forall c :: 0 <= c < |buckets| ==> buckets[c] == if c < b then target[c] else {}
    {
      if good {
        forall n | n in f.indexes[b] ensures n in infos && infos[n].refCount < NEW_BUCKETS_PER_ADDRESS {
          RoomForReference(f, infos0, b, n);
        }
      }
      var bucket;
      infos, bucket := ReadBucket(infos, f.indexes[b], f.bucketCount == NEW_BUCKET_COUNT);
      if f.bucketCount == NEW_BUCKET_COUNT {
        buckets := buckets[b := buckets[b] + bucket];
      }
      b := b + 1;
    }
    assert good ==> buckets == target;
  }

  /** The reader. */
  method Read(k: Hashing, f: File) returns (t: Tables, lost: nat)
    requires HashingOk(k) && Shaped(f)
    ensures FileOk(k, f) ==> lost == 0 && t == Rebuilt(k, f)
  {
    var infos, byAddr, random, buckets := ReadNew(k, f);
    var tried, idCount;
    infos, byAddr, random, tried, idCount, lost := ReadTried(k, f, infos, byAddr, random);
    infos, buckets := ReadBuckets(k, f, infos, buckets);
    t := Tables(idCount, infos, byAddr, random, f.nTried - lost, tried, f.nNew, buckets);
  }

  // ---------------------------------------------------------------- equal up to ids

  /** Id `i` of the state `t` stands for id q[i] of the state `s`. */
  ghost predicate Renames(s: Tables, t: Tables, q: seq<Id>) {
    && NoRepeat(q) && (forall x :: x in q <==> x in s.infos)
    && EntriesRenamed(s.infos, t.infos, q)
    && AddrsRenamed(s.byAddr, t.byAddr, q)
    && BucketsRenamed(s.buckets, t.buckets, q)
    && TriedRenamed(s.tried, t.tried, q)
    && t.random == RandomTo(|q|) && t.idCount == |q| && t.nNew == s.nNew && t.nTried == s.nTried
  }

  /** Entries agree but for the position in vRandom and the last try, which is kept in memory only. */
  ghost predicate EntriesRenamed(before: Infos, after: Infos, q: seq<Id>) {
    && (forall i :: i in after <==> 0 <= i < |q|)
    && (forall i :: 0 <= i < |q| ==>
          i in after && q[i] in before && after[i] == before[q[i]].(lastTry := 0, randomPos := i))
  }

  ghost predicate AddrsRenamed(before: map<NetAddr, Id>, after: map<NetAddr, Id>, q: seq<Id>) {
    && after.Keys == before.Keys
    && (forall a :: a in before ==> a in after && 0 <= after[a] < |q| && q[after[a]] == before[a])
  }

  ghost predicate SameMembers(before: set<Id>, after: set<Id>, q: seq<Id>) {
    forall i :: i in after <==> 0 <= i < |q| && q[i] in before
  }

  ghost predicate BucketsRenamed(before: seq<set<Id>>, after: seq<set<Id>>, q: seq<Id>) {
    |after| == |before| && forall b :: 0 <= b < |before| ==> SameMembers(before[b], after[b], q)
  }

  ghost predicate TriedRenamed(before: seq<seq<Id>>, after: seq<seq<Id>>, q: seq<Id>) {
    |after| == |before| && forall b :: 0 <= b < |before| ==>
      NoRepeat(after[b]) && SameMembers(Members(before[b]), Members(after[b]), q)
  }

  /** A set of positions and the ids at these positions have the same size. */
  lemma {:induction false} RenamedSize(q: seq<Id>, before: set<Id>, after: set<Id>)
    requires NoRepeat(q) && SameMembers(before, after, q) && forall x :: x in before ==> x in q
    ensures |after| == |before|
  {
    if after != {} {
      var i := Pick(after);
      assert SameMembers(before - {q[i]}, after - {i}, q);
      RenamedSize(q, before - {q[i]}, after - {i});
    } else if before != {} {
      var x := Pick(before);
      assert false;
    }
  }

  lemma {:induction false} RenamedRefs(before: seq<set<Id>>, after: seq<set<Id>>, q: seq<Id>, i: nat)
    requires BucketsRenamed(before, after, q) && i < |q|
    ensures RefCount(after, i) == RefCount(before, q[i])
  {
    if before != [] {
      var last := |before| - 1;
      assert BucketsRenamed(before[..last], after[..last], q);
      RenamedRefs(before[..last], after[..last], q, i);
      assert SameMembers(before[last], after[last], q);
    }
  }

  /** Renaming keeps the invariant. */
  lemma RenamedInv(k: Hashing, s: Tables, t: Tables, q: seq<Id>)
    requires Inv(k, s, NONE) && Renames(s, t, q)
    ensures Inv(k, t, NONE)
  {
    RenamedTotals(s, t, q);
    RenamedRandom(s, t, q);
    RenamedAddr(s, t, q);
    RenamedTried(k, s, t, q);
    RenamedNew(s, t, q);
    RenamedEntries(s, t, q);
  }

  lemma RenamedTotals(s: Tables, t: Tables, q: seq<Id>)
    requires Renames(s, t, q)
    ensures |TriedIds(t.infos)| == |TriedIds(s.infos)| && |NewIds(t.infos)| == |NewIds(s.infos)|
    ensures |t.infos| == |q| == |s.infos|
  {
    RenamedSize(q, TriedIds(s.infos), TriedIds(t.infos));
    RenamedSize(q, NewIds(s.infos), NewIds(t.infos));
    RenamedSize(q, s.infos.Keys, t.infos.Keys);
    ListSize(q, s.infos.Keys);
    assert |t.infos| == |t.infos.Keys| && |s.infos| == |s.infos.Keys|;
  }

  lemma RenamedRandom(s: Tables, t: Tables, q: seq<Id>)
    requires EntriesRenamed(s.infos, t.infos, q) && t.random == RandomTo(|q|) && |t.infos| == |q|
    ensures RandomOk(t.infos, t.random)
  {
  }

  lemma RenamedAddr(s: Tables, t: Tables, q: seq<Id>)
    requires EntriesRenamed(s.infos, t.infos, q) && AddrsRenamed(s.byAddr, t.byAddr, q) && NoRepeat(q)
      && AddrOk(s.infos, s.byAddr)
    ensures AddrOk(t.infos, t.byAddr)
  {
    forall n | n in t.infos
      ensures t.infos[n].address.service.addr in t.byAddr && t.byAddr[t.infos[n].address.service.addr] == n
    {
      var m := q[n];
      assert m in s.infos && t.infos[n].address == s.infos[m].address;
      var a := s.infos[m].address.service.addr;
      assert a in s.byAddr && s.byAddr[a] == m;
    }
    forall a | a in t.byAddr ensures t.byAddr[a] in t.infos && t.infos[t.byAddr[a]].address.service.addr == a {
      assert a in t.byAddr.Keys && a in s.byAddr;
    }
  }

  lemma RenamedEntries(s: Tables, t: Tables, q: seq<Id>)
    requires EntriesRenamed(s.infos, t.infos, q) && EntriesOk(s.infos, s.idCount) && t.idCount == |q|
    ensures EntriesOk(t.infos, t.idCount)
  {
    forall i | i in t.infos ensures 0 <= i < t.idCount && t.infos[i].lastTry >= 0 && t.infos[i].lastSuccess >= 0 {
      var m := q[i];
      assert m in s.infos && t.infos[i].lastSuccess == s.infos[m].lastSuccess;
    }
  }

  lemma RenamedTried(k: Hashing, s: Tables, t: Tables, q: seq<Id>)
    requires HashingOk(k) && TriedOk(k, s.infos, s.tried) && EntriesRenamed(s.infos, t.infos, q)
      && TriedRenamed(s.tried, t.tried, q)
    requires NoRepeat(q) && forall x :: x in q <==> x in s.infos
    ensures TriedOk(k, t.infos, t.tried)
  {
    forall b | 0 <= b < |t.tried| ensures BucketOk(k, t.infos, t.tried[b], b) {
      RenamedBucket(k, s, t, q, b);
    }
    forall i | i in t.infos && t.infos[i].inTried ensures Placed(k, t.infos, t.tried, i) {
      assert Placed(k, s.infos, s.tried, q[i]);
      var b := k.triedBucket(t.infos[i].address.service);
      assert SameMembers(Members(s.tried[b]), Members(t.tried[b]), q);
      assert q[i] in Members(s.tried[b]) && i in Members(t.tried[b]);
    }
  }

  lemma RenamedBucket(k: Hashing, s: Tables, t: Tables, q: seq<Id>, b: nat)
    requires TriedOk(k, s.infos, s.tried) && EntriesRenamed(s.infos, t.infos, q) && TriedRenamed(s.tried, t.tried, q)
    requires NoRepeat(q) && (forall x :: x in q <==> x in s.infos) && b < |t.tried|
    ensures BucketOk(k, t.infos, t.tried[b], b)
  {
    var before, after := s.tried[b], t.tried[b];
    assert BucketOk(k, s.infos, before, b) && SameMembers(Members(before), Members(after), q);
    ListSize(after, Members(after));
    ListSize(before, Members(before));
    RenamedSize(q, Members(before), Members(after));
    forall j | 0 <= j < |after|
      ensures after[j] in t.infos && t.infos[after[j]].inTried && k.triedBucket(t.infos[after[j]].address.service) == b
    {
      assert after[j] in Members(after);
      assert q[after[j]] in Members(before);
      var x :| 0 <= x < |before| && before[x] == q[after[j]];
    }
  }

  lemma RenamedNew(s: Tables, t: Tables, q: seq<Id>)
    requires NewOk(s.infos, s.buckets, NONE) && EntriesRenamed(s.infos, t.infos, q)
      && BucketsRenamed(s.buckets, t.buckets, q)
    requires NoRepeat(q) && (forall x :: x in q <==> x in s.infos) && NONE !in s.infos
    ensures NewOk(t.infos, t.buckets, NONE)
  {
    forall b | 0 <= b < |t.buckets| ensures NewBucketOk(t.infos, t.buckets[b]) {
      assert NewBucketOk(s.infos, s.buckets[b]) && SameMembers(s.buckets[b], t.buckets[b], q);
      RenamedSize(q, s.buckets[b], t.buckets[b]);
    }
    forall i | i in t.infos ensures CountOk(t.infos[i], RefCount(t.buckets, i) + if i == NONE then 1 else 0) {
      RenamedRefs(s.buckets, t.buckets, q, i);
      assert CountOk(s.infos[q[i]], RefCount(s.buckets, q[i]) + if q[i] == NONE then 1 else 0);
    }
  }

  // ---------------------------------------------------------------- the round trip

  /** The records of the file, in its order. */
  lemma RecordsJoin(infos: Infos, i: nat)
    requires i < |FileOrder(infos)|
    ensures var f := Records(infos, Among(infos, false)) + Records(infos, Among(infos, true));
            i < |f| && FileOrder(infos)[i] in infos && f[i] == Saved(infos[FileOrder(infos)[i]])
  {
    FileOrderLists(infos);
    var a, b := Among(infos, false), Among(infos, true);
    if i < |a| {
      assert FileOrder(infos)[i] == a[i];
      RecordAt(infos, a, i);
    } else {
      assert FileOrder(infos)[i] == b[i - |a|];
      RecordAt(infos, b, i - |a|);
    }
  }

  /** A bucket read back holds the positions of its entries. */
  lemma IndexesBack(infos: Infos, bucket: set<Id>)
    requires forall n :: n in bucket ==> n in Among(infos, false)
    ensures var r := IndexesOf(Among(infos, false), bucket);
      NoRepeat(r) && SameMembers(bucket, Members(r), FileOrder(infos)) && forall i :: i in r ==>
        0 <= i < |Among(infos, false)|
  {
    var news, q, order := Among(infos, false), FileOrder(infos), Ascending(bucket);
    var r := IndexesOf(news, bucket);
    AmongLists(infos, false);
    AscendingLists(bucket);
    assert forall j :: 0 <= j < |order| ==> order[j] in order;
    assert forall j :: 0 <= j < |r| ==> 0 <= r[j] < |news| && news[r[j]] == order[j];
    forall i ensures i in Members(r) <==> 0 <= i < |q| && q[i] in bucket {
      if 0 <= i < |q| && q[i] in bucket {
        FileOrderLists(infos);
        assert q[i] in news;
        var x :| 0 <= x < |news| && news[x] == q[i];
        assert q[x] == news[x];
        assert x == i;
        assert q[i] in order;
        var j :| 0 <= j < |order| && order[j] == q[i];
        IndexUnique(news, i);
        assert r[j] == i;
      }
    }
  }

  lemma {:induction false} ByAddrAt(all: seq<Record>, n: nat, a: NetAddr)
    requires n <= |all|
    ensures a in ByAddrTo(all, n) ==> 0 <= ByAddrTo(all, n)[a] < n && all[ByAddrTo(all, n)[a]].address.service.addr == a
    ensures a !in ByAddrTo(all, n) ==> forall i :: 0 <= i < n ==> all[i].address.service.addr != a
  {
    if n > 0 {
      ByAddrAt(all, n - 1, a);
    }
  }

  lemma AddrsBack(s: Tables, all: seq<Record>)
    requires AddrOk(s.infos, s.byAddr) && all == FileOf(s).news + FileOf(s).trieds
    ensures AddrsRenamed(s.byAddr, ByAddrTo(all, |all|), FileOrder(s.infos))
  {
    var q, after := FileOrder(s.infos), ByAddrTo(all, |all|);
    forall a ensures a in after <==> a in s.byAddr
             ensures a in s.byAddr ==> 0 <= after[a] < |q| && q[after[a]] == s.byAddr[a]
    {
      AddrBack(s, all, a);
    }
    assert forall a :: a in after.Keys <==> a in s.byAddr.Keys;
    assert after.Keys == s.byAddr.Keys;
  }

  lemma AddrBack(s: Tables, all: seq<Record>, a: NetAddr)
    requires AddrOk(s.infos, s.byAddr) && all == FileOf(s).news + FileOf(s).trieds
    ensures a in ByAddrTo(all, |all|) <==> a in s.byAddr
    ensures a in s.byAddr ==>
      var i := ByAddrTo(all, |all|)[a]; 0 <= i < |FileOrder(s.infos)| && FileOrder(s.infos)[i] == s.byAddr[a]
  {
    var q := FileOrder(s.infos);
    ByAddrAt(all, |all|, a);
    if a in s.byAddr {
      var n := s.byAddr[a];
      FileOrderLists(s.infos);
      assert n in q;
      var j :| 0 <= j < |q| && q[j] == n;
      RecordsJoin(s.infos, j);
      assert all[j].address.service.addr == a;
    }
    if a in ByAddrTo(all, |all|) {
      RecordsJoin(s.infos, ByAddrTo(all, |all|)[a]);
    }
  }

  lemma BucketsBack(k: Hashing, s: Tables)
    requires Inv(k, s, NONE)
    ensures BucketsRenamed(s.buckets, BucketsOf(FileOf(s).indexes), FileOrder(s.infos))
    ensures IndexesFit(FileOf(s))
  {
    var f, q := FileOf(s), FileOrder(s.infos);
    var buckets := BucketsOf(f.indexes);
    WriterReady(k, s);
    forall b | 0 <= b < |s.buckets|
      ensures SameMembers(s.buckets[b], buckets[b], q)
      ensures NoRepeat(f.indexes[b]) && Members(f.indexes[b]) <= Members(RandomTo(|f.news|))
    {
      IndexesBack(s.infos, s.buckets[b]);
      forall i | i in f.indexes[b] ensures i in RandomTo(|f.news|) {
        assert RandomTo(|f.news|)[i] == i;
      }
    }
    forall i: Id ensures RefCount(buckets, i) <= NEW_BUCKETS_PER_ADDRESS {
      if 0 <= i < |q| {
        RenamedRefs(s.buckets, buckets, q, i);
        FileOrderLists(s.infos);
        assert CountOk(s.infos[q[i]], RefCount(s.buckets, q[i]) + if q[i] == NONE then 1 else 0);
      } else {
        assert forall b :: 0 <= b < |buckets| ==> SameMembers(s.buckets[b], buckets[b], q);
        RefCountZero(buckets, i);
      }
    }
  }

  /** The entries of the rebuilt state. */
  ghost function InfosBack(s: Tables): Infos {
    var f := FileOf(s);
    var all, buckets := f.news + f.trieds, BucketsOf(f.indexes);
    CountedTo(InfosTo(all, |f.news|, |all|), buckets, |buckets|)
  }

  lemma EntriesBack(s: Tables)
    requires NewOk(s.infos, s.buckets, NONE) && NONE !in s.infos
    requires BucketsRenamed(s.buckets, BucketsOf(FileOf(s).indexes), FileOrder(s.infos))
    ensures EntriesRenamed(s.infos, InfosBack(s), FileOrder(s.infos))
  {
    var q, after := FileOrder(s.infos), InfosBack(s);
    forall i: Id
      ensures i in after <==> 0 <= i < |q|
      ensures 0 <= i < |q| ==> q[i] in s.infos && after[i] == s.infos[q[i]].(lastTry := 0, randomPos := i)
    {
      EntryKnown(s, i);
      if 0 <= i < |q| {
        EntryBack(s, i);
      }
    }
  }

  lemma EntryKnown(s: Tables, i: Id)
    ensures i in InfosBack(s) <==> 0 <= i < |FileOrder(s.infos)|
  {
    var f := FileOf(s);
    var all, buckets := f.news + f.trieds, BucketsOf(f.indexes);
    InfosAt(all, |f.news|, |all|, i);
    CountedAt(InfosTo(all, |f.news|, |all|), buckets, |buckets|, i);
    assert i in InfosBack(s).Keys <==> i in InfosTo(all, |f.news|, |all|).Keys;
  }

  lemma EntryBack(s: Tables, i: nat)
    requires NewOk(s.infos, s.buckets, NONE) && NONE !in s.infos
    requires BucketsRenamed(s.buckets, BucketsOf(FileOf(s).indexes), FileOrder(s.infos)) && i < |FileOrder(s.infos)|
    ensures FileOrder(s.infos)[i] in s.infos && i in InfosBack(s)
    ensures InfosBack(s)[i] == s.infos[FileOrder(s.infos)[i]].(lastTry := 0, randomPos := i)
  {
    var f, q := FileOf(s), FileOrder(s.infos);
    var all, buckets := f.news + f.trieds, BucketsOf(f.indexes);
    InfosAt(all, |f.news|, |all|, i);
    CountedAt(InfosTo(all, |f.news|, |all|), buckets, |buckets|, i);
    RecordsJoin(s.infos, i);
    FileOrderFlag(s.infos, i);
    assert buckets[..|buckets|] == buckets;
    RenamedRefs(s.buckets, buckets, q, i);
    assert CountOk(s.infos[q[i]], RefCount(s.buckets, q[i]) + if q[i] == NONE then 1 else 0);
  }

  lemma FileOrderFlag(infos: Infos, i: nat)
    requires i < |FileOrder(infos)|
    ensures FileOrder(infos)[i] in infos && (infos[FileOrder(infos)[i]].inTried <==> i >= |Among(infos, false)|)
  {
    FileOrderLists(infos);
  }

  lemma {:induction false} TriedAt(k: Hashing, trieds: seq<Record>, base: nat, n: nat, b: nat)
    requires n <= |trieds| && b < TRIED_BUCKET_COUNT
    ensures NoRepeat(TriedTo(k, trieds, base, n)[b])
    ensures forall i :: i in TriedTo(k, trieds, base, n)[b]
                        <==> base <= i < base + n && k.triedBucket(trieds[i - base].address.service) == b
  {
    if n > 0 {
      TriedAt(k, trieds, base, n - 1, b);
      var q := TriedTo(k, trieds, base, n - 1)[b];
      assert forall j :: 0 <= j < |q| ==> q[j] in q;
    }
  }

  lemma {:induction false} TriedGrows(k: Hashing, trieds: seq<Record>, base: nat, m: nat, n: nat, b: nat)
    requires m <= n <= |trieds| && b < TRIED_BUCKET_COUNT
    ensures |TriedTo(k, trieds, base, m)[b]| <= |TriedTo(k, trieds, base, n)[b]|
  {
    if m < n {
      TriedGrows(k, trieds, base, m, n - 1, b);
    }
  }

  lemma TriedBack(k: Hashing, s: Tables)
    requires HashingOk(k) && TriedOk(k, s.infos, s.tried)
    ensures TriedRenamed(s.tried, TriedTo(k, FileOf(s).trieds, |FileOf(s).news|, |FileOf(s).trieds|),
      FileOrder(s.infos))
  {
    var tried := TriedTo(k, FileOf(s).trieds, |FileOf(s).news|, |FileOf(s).trieds|);
    forall b | 0 <= b < |s.tried|
      ensures var r := tried[b];
        NoRepeat(r) && SameMembers(Members(s.tried[b]), Members(r), FileOrder(s.infos))
    {
      TriedBucketBack(k, s, b);
    }
  }

  lemma TriedBucketBack(k: Hashing, s: Tables, b: nat)
    requires HashingOk(k) && TriedOk(k, s.infos, s.tried) && b < |s.tried|
    ensures var r := TriedTo(k, FileOf(s).trieds, |FileOf(s).news|, |FileOf(s).trieds|)[b];
      NoRepeat(r) && SameMembers(Members(s.tried[b]), Members(r), FileOrder(s.infos))
  {
    var f, q := FileOf(s), FileOrder(s.infos);
    var r := TriedTo(k, f.trieds, |f.news|, |f.trieds|)[b];
    TriedAt(k, f.trieds, |f.news|, |f.trieds|, b);
    forall i ensures i in Members(r) <==> 0 <= i < |q| && q[i] in Members(s.tried[b]) {
      if 0 <= i < |q| {
        TriedPlace(k, s, b, i);
      }
    }
  }

  lemma TriedPlace(k: Hashing, s: Tables, b: nat, i: nat)
    requires HashingOk(k) && TriedOk(k, s.infos, s.tried) && b < |s.tried| && i < |FileOrder(s.infos)|
    ensures var f := FileOf(s); FileOrder(s.infos)[i] in s.tried[b] <==>
      |f.news| <= i < |f.news| + |f.trieds| && k.triedBucket(f.trieds[i - |f.news|].address.service) == b
  {
    var f, n := FileOf(s), FileOrder(s.infos)[i];
    FileOrderFlag(s.infos, i);
    InItsBucket(k, s, b, n);
    if i >= |f.news| {
      TriedRecord(s, i);
    }
  }

  /** Exactly the tried entries of a bucket number lie in the bucket. */
  lemma InItsBucket(k: Hashing, s: Tables, b: nat, n: Id)
    requires TriedOk(k, s.infos, s.tried) && b < |s.tried| && n in s.infos
    ensures n in s.tried[b] <==> s.infos[n].inTried && k.triedBucket(s.infos[n].address.service) == b
  {
    assert BucketOk(k, s.infos, s.tried[b], b);
    if s.infos[n].inTried {
      assert Placed(k, s.infos, s.tried, n);
    }
  }

  lemma TriedRecord(s: Tables, i: nat)
    requires |FileOf(s).news| <= i < |FileOrder(s.infos)|
    ensures var f, n := FileOf(s), FileOrder(s.infos)[i];
            i - |f.news| < |f.trieds| && n in s.infos && f.trieds[i - |f.news|] == Saved(s.infos[n])
  {
    RecordsJoin(s.infos, i);
    InSecondPart(FileOf(s).news, FileOf(s).trieds, i);
  }

  lemma InSecondPart(a: seq<Record>, b: seq<Record>, i: nat)
    requires |a| <= i < |a + b|
    ensures i - |a| < |b| && (a + b)[i] == b[i - |a|]
  {
  }

  lemma RoomBack(k: Hashing, s: Tables, n: nat)
    requires Inv(k, s, NONE) && n < |FileOf(s).trieds|
    ensures RoomAt(k, FileOf(s).trieds, |FileOf(s).news|, n)
  {
    var f := FileOf(s);
    var kb := k.triedBucket(f.trieds[n].address.service);
    BucketSizeBack(k, s, kb);
    TriedGrows(k, f.trieds, |f.news|, n + 1, |f.trieds|, kb);
  }

  lemma BucketSizeBack(k: Hashing, s: Tables, b: nat)
    requires HashingOk(k) && TriedOk(k, s.infos, s.tried) && b < |s.tried|
    ensures |TriedTo(k, FileOf(s).trieds, |FileOf(s).news|, |FileOf(s).trieds|)[b]| == |s.tried[b]| <= TRIED_BUCKET_SIZE
  {
    var f := FileOf(s);
    var full := TriedTo(k, f.trieds, |f.news|, |f.trieds|)[b];
    TriedBucketBack(k, s, b);
    FileOrderLists(s.infos);
    assert BucketOk(k, s.infos, s.tried[b], b);
    ListSize(full, Members(full));
    ListSize(s.tried[b], Members(s.tried[b]));
    RenamedSize(FileOrder(s.infos), Members(s.tried[b]), Members(full));
  }

  /** Nothing of a written state is refused. */
  lemma WrittenOk(k: Hashing, s: Tables)
    requires Inv(k, s, NONE)
    ensures FileOk(k, FileOf(s))
  {
    var f := FileOf(s);
    WriterReady(k, s);
    BucketsBack(k, s);
    forall n | 0 <= n < |f.trieds| ensures RoomAt(k, f.trieds, |f.news|, n) {
      RoomBack(k, s, n);
    }
  }

  lemma RebuiltParts(k: Hashing, s: Tables)
    ensures var t, f := Rebuilt(k, FileOf(s)), FileOf(s);
            var all := f.news + f.trieds;
            && t.infos == InfosBack(s) && t.byAddr == ByAddrTo(all, |all|) && t.buckets == BucketsOf(f.indexes)
            && t.tried == TriedTo(k, f.trieds, |f.news|, |f.trieds|) && t.random == RandomTo(|FileOrder(s.infos)|)
            && t.idCount == |FileOrder(s.infos)| && t.nNew == s.nNew && t.nTried == s.nTried
  {
  }

  /** What is read back is the same state under new ids. */
  lemma ReadBack(k: Hashing, s: Tables)
    requires HashingOk(k) && AddrOk(s.infos, s.byAddr) && TriedOk(k, s.infos, s.tried)
      && NewOk(s.infos, s.buckets, NONE)
    requires NONE !in s.infos && BucketsRenamed(s.buckets, BucketsOf(FileOf(s).indexes), FileOrder(s.infos))
    ensures Renames(s, Rebuilt(k, FileOf(s)), FileOrder(s.infos))
  {
    RebuiltParts(k, s);
    EntriesBack(s);
    AddrsBack(s, FileOf(s).news + FileOf(s).trieds);
    TriedBack(k, s);
    FileOrderLists(s.infos);
  }

  /** Nothing of a written state is refused, and what is read back is the same state under new ids. */
  lemma RoundTrip(k: Hashing, s: Tables)
    requires Inv(k, s, NONE)
    ensures FileOk(k, FileOf(s))
    ensures Renames(s, Rebuilt(k, FileOf(s)), FileOrder(s.infos))
    ensures Inv(k, Rebuilt(k, FileOf(s)), NONE)
  {
    WrittenOk(k, s);
    BucketsBack(k, s);
    ReadBack(k, s);
    RenamedInv(k, s, Rebuilt(k, FileOf(s)), FileOrder(s.infos));
  }

  /** Writing a state and reading the file. */
  method SaveAndLoad(k: Hashing, s: Tables) returns (t: Tables, lost: nat)
    requires Inv(k, s, NONE)
    ensures lost == 0 && Inv(k, t, NONE) && Renames(s, t, FileOrder(s.infos))
  {
    RoundTrip(k, s);
    var f := Write(k, s);
    t, lost := Read(k, f);
  }
}
