/** The invariant of the address manager and what its basic updates do to it
    (CAddrMan in src/addrman.h, Check_ and the helpers in src/addrman.cpp), on values. */
module AddrTables {
  import opened Transactions

  type Id = int
  type NetAddr = int

  /** CService: a network address and a port. */
  datatype Service = Service(addr: NetAddr, port: nat)

  /** CAddress. */
  datatype Address = Address(service: Service, services: set<nat>, time: int)

  /** CAddrInfo. */
  datatype Info = Info(address: Address, source: NetAddr, lastSuccess: int, lastTry: int,
                       attempts: int, refCount: int, inTried: bool, randomPos: int)

  const TRIED_BUCKET_COUNT: nat := 64
  const TRIED_BUCKET_SIZE: nat := 64
  const NEW_BUCKET_COUNT: nat := 256
  const NEW_BUCKET_SIZE: nat := 64
  const NEW_BUCKETS_PER_ADDRESS: nat := 4

  /** The hash-based choices: GetTriedBucket and GetNewBucket under the secret key. */
  datatype Hashing = Hashing(triedBucket: Service -> nat, newBucket: (Service, NetAddr) -> nat)

  ghost predicate HashingOk(k: Hashing) {
    && (forall a :: k.triedBucket(a) < TRIED_BUCKET_COUNT)
    && (forall a, src :: k.newBucket(a, src) < NEW_BUCKET_COUNT)
  }

  type Infos = map<Id, Info>

  // ---------------------------------------------------------------- the invariant

  /** vRandom and nRandomPos are inverse to each other. */
  ghost predicate RandomOk(infos: Infos, random: seq<Id>) {
    && |random| == |infos|
    && (forall i :: 0 <= i < |random| ==> random[i] in infos && infos[random[i]].randomPos == i)
    && (forall n :: n in infos ==> 0 <= infos[n].randomPos < |random| && random[infos[n].randomPos] == n)
  }

  /** mapAddr is the inverse of the entries' addresses. */
  ghost predicate AddrOk(infos: Infos, byAddr: map<NetAddr, Id>) {
    && (forall n :: n in infos ==>
          infos[n].address.service.addr in byAddr && byAddr[infos[n].address.service.addr] == n)
    && (forall a :: a in byAddr ==> byAddr[a] in infos && infos[byAddr[a]].address.service.addr == a)
  }

  /** Tried buckets hold exactly the tried entries, each once, in its own bucket. */
  ghost predicate TriedOk(k: Hashing, infos: Infos, tried: seq<seq<Id>>) {
    && |tried| == TRIED_BUCKET_COUNT
    && (forall b :: 0 <= b < |tried| ==> BucketOk(k, infos, tried[b], b))
    && (forall n :: n in infos && infos[n].inTried ==> Placed(k, infos, tried, n))
  }

  ghost predicate BucketOk(k: Hashing, infos: Infos, bucket: seq<Id>, b: nat) {
    && |bucket| <= TRIED_BUCKET_SIZE
    && (forall i :: 0 <= i < |bucket| ==>
          bucket[i] in infos && infos[bucket[i]].inTried && k.triedBucket(infos[bucket[i]].address.service) == b)
    && (forall i, j :: 0 <= i < j < |bucket| ==> bucket[i] != bucket[j])
  }

  ghost predicate Placed(k: Hashing, infos: Infos, tried: seq<seq<Id>>, n: Id)
    requires n in infos
  {
    k.triedBucket(infos[n].address.service) < |tried| && n in tried[k.triedBucket(infos[n].address.service)]
  }

  /** In how many new buckets an entry lies. */
  function RefCount(buckets: seq<set<Id>>, n: Id): nat {
    if buckets == [] then 0
    else RefCount(buckets[..|buckets| - 1], n) + if n in buckets[|buckets| - 1] then 1 else 0
  }

  /** New buckets hold only entries that are not tried; an entry's count is the number of buckets
      it lies in, one more for the entry `pending` that is about to be inserted. */
  ghost predicate NewOk(infos: Infos, buckets: seq<set<Id>>, pending: Id) {
    && |buckets| == NEW_BUCKET_COUNT
    && (forall b :: 0 <= b < |buckets| ==> NewBucketOk(infos, buckets[b]))
    && (forall n :: n in infos ==> CountOk(infos[n], RefCount(buckets, n) + if n == pending then 1 else 0))
  }

  ghost predicate NewBucketOk(infos: Infos, bucket: set<Id>) {
    |bucket| <= NEW_BUCKET_SIZE && forall n :: n in bucket ==> n in infos && !infos[n].inTried
  }

  ghost predicate CountOk(info: Info, count: nat) {
    && info.refCount == count
    && (if info.inTried then count == 0 && info.lastSuccess > 0 else 1 <= count <= NEW_BUCKETS_PER_ADDRESS)
  }

  ghost function TriedIds(infos: Infos): set<Id> {
    set n | n in infos && infos[n].inTried
  }

  ghost function NewIds(infos: Infos): set<Id> {
    set n | n in infos && !infos[n].inTried
  }

  ghost predicate TotalsOk(infos: Infos, nTried: int, nNew: int) {
    nTried == |TriedIds(infos)| && nNew == |NewIds(infos)|
  }

  ghost predicate EntriesOk(infos: Infos, idCount: int) {
    && idCount >= 0
    && forall n :: n in infos ==> 0 <= n < idCount && infos[n].lastTry >= 0 && infos[n].lastSuccess >= 0
  }

  /** The tables of CAddrMan. */
  datatype Tables = Tables(idCount: int, infos: Infos, byAddr: map<NetAddr, Id>, random: seq<Id>,
                           nTried: int, tried: seq<seq<Id>>, nNew: int, buckets: seq<set<Id>>)

  const NONE: Id := -1

  /** What Check_ tests, with the bucket sizes and the place of tried entries. */
  ghost predicate Inv(k: Hashing, s: Tables, pending: Id) {
    && HashingOk(k)
    && RandomOk(s.infos, s.random)
    && AddrOk(s.infos, s.byAddr)
    && TriedOk(k, s.infos, s.tried)
    && NewOk(s.infos, s.buckets, pending)
    && TotalsOk(s.infos, s.nTried, s.nNew)
    && EntriesOk(s.infos, s.idCount)
  }

  // ---------------------------------------------------------------- reference counts

  lemma {:induction false} RefCountSet(buckets: seq<set<Id>>, b: nat, bucket: set<Id>, n: Id)
    requires b < |buckets|
    ensures RefCount(buckets[b := bucket], n)
            == RefCount(buckets, n) - (if n in buckets[b] then 1 else 0) + (if n in bucket then 1 else 0)
  {
    var last := |buckets| - 1;
    if b == last {
      assert buckets[b := bucket][..last] == buckets[..last];
    } else {
      RefCountSet(buckets[..last], b, bucket, n);
      assert buckets[b := bucket][..last] == buckets[..last][b := bucket];
    }
  }

  lemma {:induction false} RefCountZero(buckets: seq<set<Id>>, n: Id)
    ensures RefCount(buckets, n) == 0 <==> forall b :: 0 <= b < |buckets| ==> n !in buckets[b]
  {
    if buckets != [] {
      var last := |buckets| - 1;
      RefCountZero(buckets[..last], n);
      assert forall b :: 0 <= b < last ==> buckets[..last][b] == buckets[b];
      if RefCount(buckets, n) == 0 {
        forall b | 0 <= b < |buckets| ensures n !in buckets[b] {
          if b < last {
            assert buckets[..last][b] == buckets[b];
          }
        }
      }
    }
  }

  /** An entry that lies in a bucket has a positive count. */
  lemma InBucketCounts(buckets: seq<set<Id>>, b: nat, n: Id)
    requires b < |buckets| && n in buckets[b]
    ensures RefCount(buckets, n) >= 1
  {
    RefCountZero(buckets, n);
  }

  /** An id without an entry lies in no new bucket. */
  lemma UnknownUncounted(infos: Infos, buckets: seq<set<Id>>, pending: Id, n: Id)
    requires NewOk(infos, buckets, pending) && n !in infos
    ensures RefCount(buckets, n) == 0
  {
    RefCountZero(buckets, n);
  }

  // ---------------------------------------------------------------- updating one entry

  /** Fields the tables do not depend on: services, times and attempts. */
  ghost predicate SameTables(i: Info, j: Info) {
    && i.address.service == j.address.service
    && i.refCount == j.refCount && i.inTried == j.inTried && i.randomPos == j.randomPos
    && j.lastTry >= 0 && j.lastSuccess >= 0 && (i.lastSuccess > 0 ==> j.lastSuccess > 0)
  }

  lemma SameIds(infos: Infos, infos': Infos)
    requires infos'.Keys == infos.Keys && forall n :: n in infos ==> infos'[n].inTried == infos[n].inTried
    ensures TriedIds(infos') == TriedIds(infos) && NewIds(infos') == NewIds(infos) && |infos'| == |infos|
  {
    assert forall n :: n in TriedIds(infos') <==> n in TriedIds(infos);
    assert forall n :: n in NewIds(infos') <==> n in NewIds(infos);
    assert |infos'.Keys| == |infos.Keys|;
  }

  lemma UpdateKeepsInv(k: Hashing, s: Tables, pending: Id, n: Id, info: Info)
    requires Inv(k, s, pending) && n in s.infos && SameTables(s.infos[n], info)
    ensures Inv(k, s.(infos := s.infos[n := info]), pending)
  {
    var infos := s.infos[n := info];
    SameIds(s.infos, infos);
    LinksSame(s.infos, infos, s.random, s.byAddr);
    TriedOkSame(k, s.infos, infos, s.tried);
    NewOkSame(s.infos, infos, s.buckets, pending);
  }

  /** vRandom and mapAddr only look at an entry's position and its address. */
  lemma LinksSame(infos: Infos, infos': Infos, random: seq<Id>, byAddr: map<NetAddr, Id>)
    requires RandomOk(infos, random) && AddrOk(infos, byAddr) && infos'.Keys == infos.Keys
    requires forall n :: n in infos ==>
      infos'[n].randomPos == infos[n].randomPos && infos'[n].address.service == infos[n].address.service
    ensures RandomOk(infos', random) && AddrOk(infos', byAddr)
  {
    assert |infos'.Keys| == |infos.Keys|;
    forall i | 0 <= i < |random| ensures random[i] in infos' && infos'[random[i]].randomPos == i {
      var n := random[i];
      assert n in infos;
      assert n in infos'.Keys;
    }
    AddrSame(infos, infos', byAddr);
  }

  lemma AddrSame(infos: Infos, infos': Infos, byAddr: map<NetAddr, Id>)
    requires AddrOk(infos, byAddr) && infos'.Keys == infos.Keys
    requires forall n :: n in infos ==> infos'[n].address.service == infos[n].address.service
    ensures AddrOk(infos', byAddr)
  {
  }

  lemma EntriesSame(infos: Infos, infos': Infos, idCount: int)
    requires EntriesOk(infos, idCount) && infos'.Keys == infos.Keys
    requires forall n :: n in infos ==>
      infos'[n].lastTry == infos[n].lastTry && infos'[n].lastSuccess == infos[n].lastSuccess
    ensures EntriesOk(infos', idCount)
  {
  }

  /** Tried buckets only look at an entry's service and its tried flag. */
  lemma TriedOkSame(k: Hashing, infos: Infos, infos': Infos, tried: seq<seq<Id>>)
    requires TriedOk(k, infos, tried) && infos'.Keys == infos.Keys
    requires forall n :: n in infos ==>
      infos'[n].inTried == infos[n].inTried && infos'[n].address.service == infos[n].address.service
    ensures TriedOk(k, infos', tried)
  {
    forall b | 0 <= b < |tried| ensures BucketOk(k, infos', tried[b], b) {
      assert BucketOk(k, infos, tried[b], b);
    }
    forall n | n in infos' && infos'[n].inTried ensures Placed(k, infos', tried, n) {
      assert Placed(k, infos, tried, n);
    }
  }

  lemma NewOkSame(infos: Infos, infos': Infos, buckets: seq<set<Id>>, pending: Id)
    requires NewOk(infos, buckets, pending) && infos'.Keys == infos.Keys
    requires forall n :: n in infos ==>
      && infos'[n].inTried == infos[n].inTried && infos'[n].refCount == infos[n].refCount
      && (infos[n].lastSuccess > 0 ==> infos'[n].lastSuccess > 0)
    ensures NewOk(infos', buckets, pending)
  {
    forall b | 0 <= b < |buckets| ensures NewBucketOk(infos', buckets[b]) {
      assert NewBucketOk(infos, buckets[b]);
    }
  }

  // ---------------------------------------------------------------- SwapRandom

  function Swapped(s: Tables, a: nat, b: nat): Tables
    requires a < |s.random| && b < |s.random| && s.random[a] in s.infos && s.random[b] in s.infos
  {
    if a == b then s
    else
      var m, n := s.random[a], s.random[b];
      var infos := s.infos[m := s.infos[m].(randomPos := b)];
      s.(infos := infos[n := infos[n].(randomPos := a)], random := s.random[a := n][b := m])
  }

  lemma SwapKeepsInv(k: Hashing, s: Tables, pending: Id, a: nat, b: nat)
    requires Inv(k, s, pending) && a < |s.random| && b < |s.random|
    ensures Inv(k, Swapped(s, a, b), pending)
  {
    if a != b {
      var s' := Swapped(s, a, b);
      SameIds(s.infos, s'.infos);
      TriedOkSame(k, s.infos, s'.infos, s.tried);
      NewOkSame(s.infos, s'.infos, s.buckets, pending);
      SwapRandomOk(s, a, b);
      AddrSame(s.infos, s'.infos, s.byAddr);
      EntriesSame(s.infos, s'.infos, s.idCount);
    }
  }

  lemma SwapRandomOk(s: Tables, a: nat, b: nat)
    requires RandomOk(s.infos, s.random) && a < |s.random| && b < |s.random| && a != b
    ensures RandomOk(Swapped(s, a, b).infos, Swapped(s, a, b).random)
  {
    var s' := Swapped(s, a, b);
    assert s'.infos.Keys == s.infos.Keys;
    assert |s'.infos.Keys| == |s.infos.Keys|;
  }

  // ---------------------------------------------------------------- taking an entry out of a new bucket

  function WithRefs(infos: Infos, n: Id, refs: int): Infos
    requires n in infos
  {
    infos[n := infos[n].(refCount := refs)]
  }

  /** The last reference of an entry goes: it is moved to the end of vRandom and deleted. */
  function Deleted(s: Tables, n: Id, b: nat): Tables
    requires n in s.infos && b < |s.buckets| && s.random != []
    requires 0 <= s.infos[n].randomPos < |s.random| && s.random[s.infos[n].randomPos] == n
    requires s.random[|s.random| - 1] in s.infos
  {
    var last := |s.random| - 1;
    var s' := Swapped(s, s.infos[n].randomPos, last);
    s'.(infos := s'.infos - {n}, random := s'.random[..last], byAddr := s.byAddr - {s.infos[n].address.service.addr},
        nNew := s.nNew - 1, buckets := s.buckets[b := s.buckets[b] - {n}])
  }

  /** What ShrinkNew does to the entry it picks. */
  function Dropped(s: Tables, n: Id, b: nat): Tables
    requires n in s.infos && b < |s.buckets| && s.random != []
    requires 0 <= s.infos[n].randomPos < |s.random| && s.random[s.infos[n].randomPos] == n
    requires s.random[|s.random| - 1] in s.infos
  {
    if s.infos[n].refCount == 1 then Deleted(s, n, b)
    else s.(infos := WithRefs(s.infos, n, s.infos[n].refCount - 1), buckets := s.buckets[b := s.buckets[b] - {n}])
  }

  lemma DropKeepsInv(k: Hashing, s: Tables, pending: Id, n: Id, b: nat)
    requires Inv(k, s, pending) && b < |s.buckets| && n in s.buckets[b] && n != pending
    ensures n in s.infos && 0 <= s.infos[n].randomPos < |s.random| && s.random[s.infos[n].randomPos] == n
    ensures s.random[|s.random| - 1] in s.infos
    ensures Inv(k, Dropped(s, n, b), pending)
  {
    assert NewBucketOk(s.infos, s.buckets[b]);
    InBucketCounts(s.buckets, b, n);
    if s.infos[n].refCount == 1 {
      DeleteKeepsInv(k, s, pending, n, b);
    } else {
      UnrefKeepsInv(k, s, pending, n, b);
    }
  }

  /** One reference less for an entry that has more than one. */
  lemma UnrefKeepsInv(k: Hashing, s: Tables, pending: Id, n: Id, b: nat)
    requires Inv(k, s, pending) && b < |s.buckets| && n in s.buckets[b] && n != pending
    requires n in s.infos && s.infos[n].refCount > 1
    ensures Inv(k, s.(infos := WithRefs(s.infos, n, s.infos[n].refCount - 1),
                      buckets := s.buckets[b := s.buckets[b] - {n}]), pending)
  {
    var infos := WithRefs(s.infos, n, s.infos[n].refCount - 1);
    SameIds(s.infos, infos);
    LinksSame(s.infos, infos, s.random, s.byAddr);
    EntriesSame(s.infos, infos, s.idCount);
    TriedOkSame(k, s.infos, infos, s.tried);
    DropNewOk(s.infos, infos, s.buckets, pending, n, b);
  }

  lemma DropNewOk(infos: Infos, infos': Infos, buckets: seq<set<Id>>, pending: Id, n: Id, b: nat)
    requires NewOk(infos, buckets, pending) && b < |buckets| && n in buckets[b] && n in infos && n != pending
    requires infos[n].refCount > 1 && infos' == WithRefs(infos, n, infos[n].refCount - 1)
    ensures NewOk(infos', buckets[b := buckets[b] - {n}], pending)
  {
    var buckets' := buckets[b := buckets[b] - {n}];
    forall c | 0 <= c < |buckets'| ensures NewBucketOk(infos', buckets'[c]) {
      assert NewBucketOk(infos, buckets[c]);
      SmallerSet(buckets[b], n);
    }
    forall m | m in infos' ensures CountOk(infos'[m], RefCount(buckets', m) + if m == pending then 1 else 0) {
      RefCountSet(buckets, b, buckets[b] - {n}, m);
      assert CountOk(infos[m], RefCount(buckets, m) + if m == pending then 1 else 0);
    }
  }

  lemma SmallerSet(s: set<Id>, n: Id)
    ensures |s - {n}| == |s| - if n in s then 1 else 0
  {
    if n !in s {
      assert s - {n} == s;
    }
  }

  lemma LargerSet(s: set<Id>, n: Id)
    ensures |s + {n}| == |s| + if n in s then 0 else 1
  {
    if n in s {
      assert s + {n} == s;
    }
  }

  lemma DeleteKeepsInv(k: Hashing, s: Tables, pending: Id, n: Id, b: nat)
    requires Inv(k, s, pending) && b < |s.buckets| && n in s.buckets[b] && n != pending && n in s.infos
    requires s.infos[n].refCount == 1 && !s.infos[n].inTried
    ensures s.random != [] && s.random[|s.random| - 1] in s.infos
    ensures Inv(k, Deleted(s, n, b), pending)
  {
    SwapMovesToEnd(s, n);
    var last := |s.random| - 1;
    SwapKeepsInv(k, s, pending, s.infos[n].randomPos, last);
    RemoveKeepsInv(k, Swapped(s, s.infos[n].randomPos, last), pending, n, b);
  }

  lemma SwapMovesToEnd(s: Tables, n: Id)
    requires RandomOk(s.infos, s.random) && n in s.infos
    ensures s.random != [] && s.random[|s.random| - 1] in s.infos
    ensures var t := Swapped(s, s.infos[n].randomPos, |s.random| - 1);
            n in t.infos && t.infos[n] == s.infos[n].(randomPos := |s.random| - 1)
  {
  }

  /** Taking an entry at the end of vRandom out of its only bucket and out of every table. */
  lemma RemoveKeepsInv(k: Hashing, t: Tables, pending: Id, n: Id, b: nat)
    requires Inv(k, t, pending) && b < |t.buckets| && n in t.buckets[b] && n != pending && n in t.infos
    requires t.infos[n].refCount == 1 && !t.infos[n].inTried && t.infos[n].randomPos == |t.random| - 1
    ensures Inv(k, t.(infos := t.infos - {n}, random := t.random[..|t.random| - 1],
                      byAddr := t.byAddr - {t.infos[n].address.service.addr}, nNew := t.nNew - 1,
                      buckets := t.buckets[b := t.buckets[b] - {n}]), pending)
  {
    RemoveEntriesOk(t.infos, t.idCount, n);
    RemoveRandomOk(t.infos, t.random, n);
    RemoveTriedOk(k, t.infos, t.tried, n);
    RemoveNewOk(t.infos, t.buckets, pending, n, b);
    RemoveIds(t.infos, n);
    RemoveAddrOk(t.infos, t.byAddr, n);
  }

  lemma RemoveRandomOk(infos: Infos, random: seq<Id>, n: Id)
    requires RandomOk(infos, random) && n in infos && infos[n].randomPos == |random| - 1
    ensures RandomOk(infos - {n}, random[..|random| - 1])
  {
    assert (infos - {n}).Keys == infos.Keys - {n};
    SmallerSet(infos.Keys, n);
  }

  lemma RemoveTriedOk(k: Hashing, infos: Infos, tried: seq<seq<Id>>, n: Id)
    requires TriedOk(k, infos, tried) && n in infos && !infos[n].inTried
    ensures TriedOk(k, infos - {n}, tried)
  {
    forall b | 0 <= b < |tried| ensures BucketOk(k, infos - {n}, tried[b], b) {
      assert BucketOk(k, infos, tried[b], b);
    }
    forall m | m in infos - {n} && (infos - {n})[m].inTried ensures Placed(k, infos - {n}, tried, m) {
      assert Placed(k, infos, tried, m);
    }
  }

  lemma RemoveNewOk(infos: Infos, buckets: seq<set<Id>>, pending: Id, n: Id, b: nat)
    requires NewOk(infos, buckets, pending) && b < |buckets| && n in buckets[b] && n in infos && n != pending
    requires infos[n].refCount == 1
    ensures NewOk(infos - {n}, buckets[b := buckets[b] - {n}], pending)
  {
    var buckets' := buckets[b := buckets[b] - {n}];
    assert CountOk(infos[n], RefCount(buckets, n));
    RefCountSet(buckets, b, buckets[b] - {n}, n);
    RefCountZero(buckets', n);
    forall c | 0 <= c < |buckets'| ensures NewBucketOk(infos - {n}, buckets'[c]) {
      assert NewBucketOk(infos, buckets[c]);
      SmallerSet(buckets[b], n);
      assert n !in buckets'[c];
    }
    forall m | m in infos - {n}
      ensures CountOk((infos - {n})[m], RefCount(buckets', m) + if m == pending then 1 else 0) {
      RefCountSet(buckets, b, buckets[b] - {n}, m);
      assert CountOk(infos[m], RefCount(buckets, m) + if m == pending then 1 else 0);
    }
  }

  lemma RemoveIds(infos: Infos, n: Id)
    requires n in infos && !infos[n].inTried
    ensures |TriedIds(infos - {n})| == |TriedIds(infos)| && |NewIds(infos - {n})| == |NewIds(infos)| - 1
  {
    assert forall m :: m in TriedIds(infos - {n}) <==> m in TriedIds(infos);
    assert TriedIds(infos - {n}) == TriedIds(infos);
    assert forall m :: m in NewIds(infos - {n}) <==> m in NewIds(infos) - {n};
    assert NewIds(infos - {n}) == NewIds(infos) - {n};
    SmallerSet(NewIds(infos), n);
  }

  lemma RemoveEntriesOk(infos: Infos, idCount: int, n: Id)
    requires EntriesOk(infos, idCount)
    ensures EntriesOk(infos - {n}, idCount)
  {
  }

  lemma RemoveAddrOk(infos: Infos, byAddr: map<NetAddr, Id>, n: Id)
    requires AddrOk(infos, byAddr) && n in infos
    ensures AddrOk(infos - {n}, byAddr - {infos[n].address.service.addr})
  {
  }

  // ---------------------------------------------------------------- a new entry, one more reference

  /** Create followed by the counting of Add_: the entry has one reference, about to be inserted. */
  function Created(s: Tables, a: Address, source: NetAddr): Tables {
    var n := s.idCount;
    s.(idCount := n + 1, infos := s.infos[n := Info(a, source, 0, 0, 0, 1, false, |s.random|)],
       byAddr := s.byAddr[a.service.addr := n], random := s.random + [n], nNew := s.nNew + 1)
  }

  lemma CreateKeepsInv(k: Hashing, s: Tables, a: Address, source: NetAddr)
    requires Inv(k, s, NONE) && a.service.addr !in s.byAddr
    ensures Inv(k, Created(s, a, source), s.idCount)
    ensures forall b :: 0 <= b < |s.buckets| ==> s.idCount !in s.buckets[b]
  {
    var n, t := s.idCount, Created(s, a, source);
    assert n !in s.infos;
    UnknownUncounted(s.infos, s.buckets, NONE, n);
    RefCountZero(s.buckets, n);
    GrowTriedOk(k, s.infos, s.tried, n, t.infos[n]);
    GrowNewOk(s.infos, s.buckets, n, t.infos[n]);
    GrowIds(s.infos, n, t.infos[n]);
    GrowRandomOk(s.infos, s.random, n, t.infos[n]);
    GrowAddrOk(s.infos, s.byAddr, n, t.infos[n]);
    GrowEntriesOk(s.infos, n, t.infos[n]);
  }

  lemma GrowRandomOk(infos: Infos, random: seq<Id>, n: Id, info: Info)
    requires RandomOk(infos, random) && n !in infos && info.randomPos == |random|
    ensures RandomOk(infos[n := info], random + [n])
  {
    assert infos[n := info].Keys == infos.Keys + {n};
    LargerSet(infos.Keys, n);
  }

  lemma GrowAddrOk(infos: Infos, byAddr: map<NetAddr, Id>, n: Id, info: Info)
    requires AddrOk(infos, byAddr) && n !in infos && info.address.service.addr !in byAddr
    ensures AddrOk(infos[n := info], byAddr[info.address.service.addr := n])
  {
  }

  lemma GrowEntriesOk(infos: Infos, n: Id, info: Info)
    requires EntriesOk(infos, n) && n >= 0 && info.lastTry >= 0 && info.lastSuccess >= 0
    ensures EntriesOk(infos[n := info], n + 1)
  {
  }

  lemma GrowTriedOk(k: Hashing, infos: Infos, tried: seq<seq<Id>>, n: Id, info: Info)
    requires TriedOk(k, infos, tried) && n !in infos && !info.inTried
    ensures TriedOk(k, infos[n := info], tried)
  {
    var infos' := infos[n := info];
    forall b | 0 <= b < |tried| ensures BucketOk(k, infos', tried[b], b) {
      assert BucketOk(k, infos, tried[b], b);
    }
    forall m | m in infos' && infos'[m].inTried ensures Placed(k, infos', tried, m) {
      assert Placed(k, infos, tried, m);
    }
  }

  lemma GrowNewOk(infos: Infos, buckets: seq<set<Id>>, n: Id, info: Info)
    requires NewOk(infos, buckets, NONE) && n !in infos && NONE !in infos && !info.inTried && info.refCount == 1
    requires RefCount(buckets, n) == 0
    ensures NewOk(infos[n := info], buckets, n)
  {
    var infos' := infos[n := info];
    forall b | 0 <= b < |buckets| ensures NewBucketOk(infos', buckets[b]) {
      assert NewBucketOk(infos, buckets[b]);
    }
    forall m | m in infos' ensures CountOk(infos'[m], RefCount(buckets, m) + if m == n then 1 else 0) {
      assert m in infos ==> CountOk(infos[m], RefCount(buckets, m) + if m == NONE then 1 else 0);
    }
  }

  lemma GrowIds(infos: Infos, n: Id, info: Info)
    requires n !in infos && !info.inTried
    ensures |TriedIds(infos[n := info])| == |TriedIds(infos)| && |NewIds(infos[n := info])| == |NewIds(infos)| + 1
  {
    var infos' := infos[n := info];
    assert forall m :: m in TriedIds(infos') <==> m in TriedIds(infos);
    assert TriedIds(infos') == TriedIds(infos);
    assert forall m :: m in NewIds(infos') <==> m in NewIds(infos) + {n};
    assert NewIds(infos') == NewIds(infos) + {n};
    LargerSet(NewIds(infos), n);
  }

  /** One more reference, not yet inserted. */
  ghost function Raised(s: Tables, n: Id): Tables
    requires n in s.infos
  {
    s.(infos := WithRefs(s.infos, n, s.infos[n].refCount + 1))
  }

  /** One more reference for an entry that has room for it. */
  lemma RefKeepsInv(k: Hashing, s: Tables, n: Id)
    requires Inv(k, s, NONE) && n in s.infos && !s.infos[n].inTried && s.infos[n].refCount < NEW_BUCKETS_PER_ADDRESS
    ensures Inv(k, Raised(s, n), n)
  {
    var infos := WithRefs(s.infos, n, s.infos[n].refCount + 1);
    SameIds(s.infos, infos);
    LinksSame(s.infos, infos, s.random, s.byAddr);
    EntriesSame(s.infos, infos, s.idCount);
    TriedOkSame(k, s.infos, infos, s.tried);
    RefNewOk(s.infos, infos, s.buckets, n);
  }

  lemma RefNewOk(infos: Infos, infos': Infos, buckets: seq<set<Id>>, n: Id)
    requires NewOk(infos, buckets, NONE) && NONE !in infos
    requires n in infos && !infos[n].inTried && infos[n].refCount < NEW_BUCKETS_PER_ADDRESS
    requires infos' == WithRefs(infos, n, infos[n].refCount + 1)
    ensures NewOk(infos', buckets, n)
  {
    forall b | 0 <= b < |buckets| ensures NewBucketOk(infos', buckets[b]) {
      assert NewBucketOk(infos, buckets[b]);
    }
    forall m | m in infos' ensures CountOk(infos'[m], RefCount(buckets, m) + if m == n then 1 else 0) {
      assert CountOk(infos[m], RefCount(buckets, m) + if m == NONE then 1 else 0);
    }
  }

  /** The pending entry enters a bucket with room. */
  lemma InsertKeepsInv(k: Hashing, s: Tables, n: Id, b: nat)
    requires Inv(k, s, n) && n in s.infos && b < |s.buckets| && n !in s.buckets[b] && |s.buckets[b]| < NEW_BUCKET_SIZE
    requires !s.infos[n].inTried
    ensures Inv(k, s.(buckets := s.buckets[b := s.buckets[b] + {n}]), NONE)
  {
    var buckets := s.buckets[b := s.buckets[b] + {n}];
    forall c | 0 <= c < |buckets| ensures NewBucketOk(s.infos, buckets[c]) {
      assert NewBucketOk(s.infos, s.buckets[c]);
      LargerSet(s.buckets[b], n);
    }
    forall m | m in s.infos ensures CountOk(s.infos[m], RefCount(buckets, m) + if m == NONE then 1 else 0) {
      RefCountSet(s.buckets, b, s.buckets[b] + {n}, m);
      assert CountOk(s.infos[m], RefCount(s.buckets, m) + if m == n then 1 else 0);
    }
  }

  // ---------------------------------------------------------------- moving an entry to the tried table

  /** The entry is taken out of every new bucket. */
  function Cleared(buckets: seq<set<Id>>, n: Id): seq<set<Id>> {
    seq(|buckets|, b requires 0 <= b < |buckets| => buckets[b] - {n})
  }

  lemma {:induction false} RefCountCleared(buckets: seq<set<Id>>, n: Id, m: Id)
    ensures RefCount(Cleared(buckets, n), m) == if m == n then 0 else RefCount(buckets, m)
  {
    if buckets != [] {
      var last := |buckets| - 1;
      RefCountCleared(buckets[..last], n, m);
      assert Cleared(buckets, n)[..last] == Cleared(buckets[..last], n);
    }
  }

  /** The loop of MakeTried over the new buckets: each bucket left takes one reference away. */
  lemma RefCountPrefix(buckets: seq<set<Id>>, n: Id, k: nat)
    requires k < |buckets|
    ensures RefCount(buckets[..k + 1], n) == RefCount(buckets[..k], n) + if n in buckets[k] then 1 else 0
  {
    assert buckets[..k + 1][..k] == buckets[..k];
  }

  lemma {:induction false} RefCountGrows(buckets: seq<set<Id>>, b: nat, n: Id)
    requires b <= |buckets|
    ensures RefCount(buckets[..b], n) <= RefCount(buckets, n)
    decreases |buckets| - b
  {
    if b < |buckets| {
      RefCountPrefix(buckets, n, b);
      RefCountGrows(buckets, b + 1, n);
    } else {
      assert buckets[..b] == buckets;
    }
  }

  function AsTried(info: Info): Info {
    info.(refCount := 0, inTried := true)
  }

  function AsNew(info: Info): Info {
    info.(refCount := 1, inTried := false)
  }

  /** MakeTried when the tried bucket has room. */
  function Promoted(k: Hashing, s: Tables, n: Id): Tables
    requires n in s.infos && k.triedBucket(s.infos[n].address.service) < |s.tried|
  {
    var kb := k.triedBucket(s.infos[n].address.service);
    s.(infos := s.infos[n := AsTried(s.infos[n])], buckets := Cleared(s.buckets, n),
       tried := s.tried[kb := s.tried[kb] + [n]], nTried := s.nTried + 1, nNew := s.nNew - 1)
  }

  lemma PromoteKeepsInv(k: Hashing, s: Tables, n: Id)
    requires Inv(k, s, NONE) && n in s.infos && !s.infos[n].inTried && s.infos[n].lastSuccess > 0
    requires |s.tried[k.triedBucket(s.infos[n].address.service)]| < TRIED_BUCKET_SIZE
    ensures Inv(k, Promoted(k, s, n), NONE)
  {
    var t := Promoted(k, s, n);
    LinksSame(s.infos, t.infos, s.random, s.byAddr);
    EntriesSame(s.infos, t.infos, s.idCount);
    PromoteTriedOk(k, s.infos, s.tried, n);
    PromoteNewOk(s.infos, s.buckets, n);
    PromoteIds(s.infos, n);
  }

  lemma PromoteTriedOk(k: Hashing, infos: Infos, tried: seq<seq<Id>>, n: Id)
    requires HashingOk(k) && TriedOk(k, infos, tried) && n in infos && !infos[n].inTried
    requires |tried[k.triedBucket(infos[n].address.service)]| < TRIED_BUCKET_SIZE
    ensures var kb := k.triedBucket(infos[n].address.service);
            TriedOk(k, infos[n := AsTried(infos[n])], tried[kb := tried[kb] + [n]])
  {
    var kb, infos' := k.triedBucket(infos[n].address.service), infos[n := AsTried(infos[n])];
    var tried' := tried[kb := tried[kb] + [n]];
    forall b | 0 <= b < |tried'| ensures BucketOk(k, infos', tried'[b], b) {
      assert BucketOk(k, infos, tried[b], b);
    }
    forall m | m in infos' && infos'[m].inTried ensures Placed(k, infos', tried', m) {
      if m != n {
        assert Placed(k, infos, tried, m);
      } else {
        assert tried'[kb][|tried[kb]|] == n;
      }
    }
  }

  lemma PromoteNewOk(infos: Infos, buckets: seq<set<Id>>, n: Id)
    requires NewOk(infos, buckets, NONE) && n in infos && NONE !in infos && infos[n].lastSuccess > 0
    ensures NewOk(infos[n := AsTried(infos[n])], Cleared(buckets, n), NONE)
  {
    var infos', buckets' := infos[n := AsTried(infos[n])], Cleared(buckets, n);
    forall b | 0 <= b < |buckets'| ensures NewBucketOk(infos', buckets'[b]) {
      assert NewBucketOk(infos, buckets[b]);
      SmallerSet(buckets[b], n);
    }
    forall m | m in infos' ensures CountOk(infos'[m], RefCount(buckets', m) + if m == NONE then 1 else 0) {
      RefCountCleared(buckets, n, m);
      assert CountOk(infos[m], RefCount(buckets, m) + if m == NONE then 1 else 0);
    }
  }

  lemma PromoteIds(infos: Infos, n: Id)
    requires n in infos && !infos[n].inTried
    ensures var infos' := infos[n := AsTried(infos[n])];
            |TriedIds(infos')| == |TriedIds(infos)| + 1 && |NewIds(infos')| == |NewIds(infos)| - 1
  {
    var infos' := infos[n := AsTried(infos[n])];
    assert forall m :: m in TriedIds(infos') <==> m in TriedIds(infos) + {n};
    assert TriedIds(infos') == TriedIds(infos) + {n};
    assert forall m :: m in NewIds(infos') <==> m in NewIds(infos) - {n};
    assert NewIds(infos') == NewIds(infos) - {n};
    SmallerSet(NewIds(infos), n);
    LargerSet(TriedIds(infos), n);
  }

  /** An entry of a full tried bucket makes way: it becomes a new entry, in the new bucket `ub`,
      and `n` takes its place. */
  function Replaced(s: Tables, n: Id, kb: nat, pos: nat, ub: nat): Tables
    requires n in s.infos && kb < |s.tried| && pos < |s.tried[kb]| && s.tried[kb][pos] in s.infos
    requires ub < |s.buckets|
  {
    var out, cleared := s.tried[kb][pos], Cleared(s.buckets, n);
    s.(infos := s.infos[n := AsTried(s.infos[n])][out := AsNew(s.infos[out])],
       buckets := cleared[ub := cleared[ub] + {out}],
       tried := s.tried[kb := s.tried[kb][pos := n]])
  }

  lemma ReplaceKeepsInv(k: Hashing, s: Tables, n: Id, kb: nat, pos: nat, ub: nat)
    requires Inv(k, s, NONE) && n in s.infos && !s.infos[n].inTried && s.infos[n].lastSuccess > 0
    requires kb == k.triedBucket(s.infos[n].address.service) && pos < |s.tried[kb]|
    requires ub < |s.buckets| && |Cleared(s.buckets, n)[ub]| < NEW_BUCKET_SIZE
    ensures s.tried[kb][pos] in s.infos
    ensures Inv(k, Replaced(s, n, kb, pos, ub), NONE)
  {
    assert BucketOk(k, s.infos, s.tried[kb], kb);
    var out := s.tried[kb][pos];
    var mid := s.infos[n := AsTried(s.infos[n])];
    var infos := mid[out := AsNew(s.infos[out])];
    LinksSame(s.infos, infos, s.random, s.byAddr);
    EntriesSame(s.infos, infos, s.idCount);
    ReplaceTriedOk(k, s.infos, s.tried, n, kb, pos);
    PromoteNewOk(s.infos, s.buckets, n);
    DemoteNewOk(mid, Cleared(s.buckets, n), out, ub);
    PromoteIds(s.infos, n);
    DemoteIds(mid, out);
  }

  lemma ReplaceTriedOk(k: Hashing, infos: Infos, tried: seq<seq<Id>>, n: Id, kb: nat, pos: nat)
    requires HashingOk(k) && TriedOk(k, infos, tried) && n in infos && !infos[n].inTried
    requires kb == k.triedBucket(infos[n].address.service) && pos < |tried[kb]| && tried[kb][pos] in infos
    ensures var out := tried[kb][pos];
            TriedOk(k, infos[n := AsTried(infos[n])][out := AsNew(infos[out])], tried[kb := tried[kb][pos := n]])
  {
    var out, tried' := tried[kb][pos], tried[kb := tried[kb][pos := n]];
    var infos' := infos[n := AsTried(infos[n])][out := AsNew(infos[out])];
    assert BucketOk(k, infos, tried[kb], kb);
    forall b | 0 <= b < |tried'| ensures BucketOk(k, infos', tried'[b], b) {
      assert BucketOk(k, infos, tried[b], b);
    }
    forall m | m in infos' && infos'[m].inTried ensures Placed(k, infos', tried', m) {
      if m != n {
        assert Placed(k, infos, tried, m);
        if k.triedBucket(infos[m].address.service) == kb {
          StillThere(tried[kb], pos, n, m);
        }
      } else {
        assert tried'[kb][pos] == n;
      }
    }
  }

  lemma StillThere(bucket: seq<Id>, pos: nat, n: Id, m: Id)
    requires pos < |bucket| && m in bucket && m != bucket[pos]
    ensures m in bucket[pos := n]
  {
    var i :| 0 <= i < |bucket| && bucket[i] == m;
    assert bucket[pos := n][i] == m;
  }

  lemma DemoteNewOk(infos: Infos, buckets: seq<set<Id>>, out: Id, ub: nat)
    requires NewOk(infos, buckets, NONE) && out in infos && NONE !in infos && infos[out].inTried
    requires ub < |buckets| && |buckets[ub]| < NEW_BUCKET_SIZE
    ensures NewOk(infos[out := AsNew(infos[out])], buckets[ub := buckets[ub] + {out}], NONE)
  {
    var infos', buckets' := infos[out := AsNew(infos[out])], buckets[ub := buckets[ub] + {out}];
    assert CountOk(infos[out], RefCount(buckets, out));
    RefCountZero(buckets, out);
    forall b | 0 <= b < |buckets'| ensures NewBucketOk(infos', buckets'[b]) {
      assert NewBucketOk(infos, buckets[b]);
      LargerSet(buckets[ub], out);
    }
    forall m | m in infos' ensures CountOk(infos'[m], RefCount(buckets', m) + if m == NONE then 1 else 0) {
      RefCountSet(buckets, ub, buckets[ub] + {out}, m);
      assert CountOk(infos[m], RefCount(buckets, m) + if m == NONE then 1 else 0);
    }
  }

  lemma DemoteIds(infos: Infos, n: Id)
    requires n in infos && infos[n].inTried
    ensures var infos' := infos[n := AsNew(infos[n])];
            |TriedIds(infos')| == |TriedIds(infos)| - 1 && |NewIds(infos')| == |NewIds(infos)| + 1
  {
    var infos' := infos[n := AsNew(infos[n])];
    assert forall m :: m in TriedIds(infos') <==> m in TriedIds(infos) - {n};
    assert TriedIds(infos') == TriedIds(infos) - {n};
    assert forall m :: m in NewIds(infos') <==> m in NewIds(infos) + {n};
    assert NewIds(infos') == NewIds(infos) + {n};
    SmallerSet(TriedIds(infos), n);
    LargerSet(NewIds(infos), n);
  }

  /** The entry leaving `origin` makes room there. */
  lemma OriginHasRoom(infos: Infos, buckets: seq<set<Id>>, n: Id, origin: nat)
    requires NewOk(infos, buckets, NONE) && origin < |buckets| && n in buckets[origin]
    ensures |Cleared(buckets, n)[origin]| < NEW_BUCKET_SIZE
  {
    assert NewBucketOk(infos, buckets[origin]);
    SmallerSet(buckets[origin], n);
  }

  // ---------------------------------------------------------------- shuffling a tried bucket

  function SwappedIn(bucket: seq<Id>, i: nat, j: nat): seq<Id>
    requires i < |bucket| && j < |bucket|
  {
    bucket[j := bucket[i]][i := bucket[j]]
  }

  lemma ShuffleTriedOk(k: Hashing, infos: Infos, tried: seq<seq<Id>>, kb: nat, i: nat, j: nat)
    requires TriedOk(k, infos, tried) && kb < |tried| && i < |tried[kb]| && j < |tried[kb]|
    ensures TriedOk(k, infos, tried[kb := SwappedIn(tried[kb], i, j)])
  {
    var tried' := tried[kb := SwappedIn(tried[kb], i, j)];
    forall b | 0 <= b < |tried'| ensures BucketOk(k, infos, tried'[b], b) {
      assert BucketOk(k, infos, tried[b], b);
    }
    forall m | m in infos && infos[m].inTried ensures Placed(k, infos, tried', m) {
      assert Placed(k, infos, tried, m);
      SwapKeepsMembers(tried[kb], i, j, m);
    }
  }

  lemma SwapKeepsMembers(bucket: seq<Id>, i: nat, j: nat, m: Id)
    requires i < |bucket| && j < |bucket|
    ensures m in SwappedIn(bucket, i, j) <==> m in bucket
  {
    var t := SwappedIn(bucket, i, j);
    if m in bucket {
      var x :| 0 <= x < |bucket| && bucket[x] == m;
      assert t[if x == i then j else if x == j then i else x] == m;
    }
  }
}
