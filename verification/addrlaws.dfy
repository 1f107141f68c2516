/** What the rules of the address manager achieve: how few buckets one group or source can reach, which entries
    may be thrown out, how times move and how many addresses are given away (src/addrman.cpp). */
module AddrLaws {
  import opened Transactions
  import opened AddrTables
  import opened AddrMan
  import opened Powers

  const TRIED_BUCKETS_PER_GROUP: nat := 4
  const NEW_BUCKETS_PER_SOURCE_GROUP: nat := 32

  /** The keyed hashes behind GetTriedBucket and GetNewBucket, and the network group of an address. */
  datatype Keyed = Keyed(group: NetAddr -> int, service: Service -> nat, inGroup: (int, nat) -> nat,
                         fromSource: (int, int) -> nat, inSource: (int, nat) -> nat)

  /** The tried buckets that the addresses of a group can reach, by number. */
  function OfGroup(x: Keyed, g: int, i: nat): (b: nat)
    ensures b < TRIED_BUCKET_COUNT
  {
    x.inGroup(g, i) % TRIED_BUCKET_COUNT
  }

  /** The new buckets that the sources of a group can reach, by number. */
  function OfSource(x: Keyed, g: int, i: nat): (b: nat)
    ensures b < NEW_BUCKET_COUNT
  {
    x.inSource(g, i) % NEW_BUCKET_COUNT
  }

  function HashingOf(x: Keyed): Hashing {
    Hashing((s: Service) => OfGroup(x, x.group(s.addr), x.service(s) % TRIED_BUCKETS_PER_GROUP),
            (s: Service, source: NetAddr) => OfSource(x, x.group(source),
                                    x.fromSource(x.group(s.addr), x.group(source)) % NEW_BUCKETS_PER_SOURCE_GROUP))
  }

  lemma HashingOfOk(x: Keyed)
    ensures HashingOk(HashingOf(x))
  {
    forall a: Service ensures HashingOf(x).triedBucket(a) < TRIED_BUCKET_COUNT {
      assert HashingOf(x).triedBucket(a) == OfGroup(x, x.group(a.addr), x.service(a) % TRIED_BUCKETS_PER_GROUP);
    }
    forall a: Service, source: NetAddr ensures HashingOf(x).newBucket(a, source) < NEW_BUCKET_COUNT {
      var i := x.fromSource(x.group(a.addr), x.group(source)) % NEW_BUCKETS_PER_SOURCE_GROUP;
      assert HashingOf(x).newBucket(a, source) == OfSource(x, x.group(source), i);
    }
  }

  function GroupBuckets(x: Keyed, g: int, n: nat): (bs: set<nat>)
    ensures |bs| <= n
  {
    if n == 0 then {} else GroupBuckets(x, g, n - 1) + {OfGroup(x, g, n - 1)}
  }

  function SourceBuckets(x: Keyed, g: int, n: nat): (bs: set<nat>)
    ensures |bs| <= n
  {
    if n == 0 then {} else SourceBuckets(x, g, n - 1) + {OfSource(x, g, n - 1)}
  }

  lemma {:induction false} GroupBucketIn(x: Keyed, g: int, n: nat, i: nat)
    requires i < n
    ensures OfGroup(x, g, i) in GroupBuckets(x, g, n)
  {
    if i < n - 1 {
      GroupBucketIn(x, g, n - 1, i);
    }
  }

  lemma {:induction false} SourceBucketIn(x: Keyed, g: int, n: nat, i: nat)
    requires i < n
    ensures OfSource(x, g, i) in SourceBuckets(x, g, n)
  {
    if i < n - 1 {
      SourceBucketIn(x, g, n - 1, i);
    }
  }

  /** The addresses of one network group share four tried buckets. */
  lemma TriedBucketsOfGroup(x: Keyed, s: Service)
    ensures HashingOf(x).triedBucket(s) in GroupBuckets(x, x.group(s.addr), 4)
    ensures |GroupBuckets(x, x.group(s.addr), 4)| <= 4
  {
    GroupBucketIn(x, x.group(s.addr), 4, x.service(s) % 4);
  }

  /** The sources of one network group share thirty-two new buckets, whatever addresses they send. */
  lemma NewBucketsOfSource(x: Keyed, s: Service, source: NetAddr)
    ensures HashingOf(x).newBucket(s, source) in SourceBuckets(x, x.group(source), 32)
    ensures |SourceBuckets(x, x.group(source), 32)| <= 32
  {
    SourceBucketIn(x, x.group(source), 32, x.fromSource(x.group(s.addr), x.group(source)) % 32);
  }

  /** So what Add_ does with a message changes none but the thirty-two buckets of its source's group. */
  lemma AddStaysInSourceBuckets(x: Keyed, infos: Infos, infos': Infos, buckets: seq<set<Id>>, buckets': seq<set<Id>>,
                                n: Id, a: Address, source: NetAddr, penalty: int, now: int, draw: nat, out: set<Id>,
                                b: nat)
    requires n in infos && b < |buckets| && b !in SourceBuckets(x, x.group(source), 32)
    requires Updates(HashingOf(x), infos, infos', buckets, buckets', n, a, source, penalty, now, draw, out)
             || EntersBucket(infos, buckets, buckets', HashingOf(x).newBucket(a.service, source), n, now, out)
    ensures |buckets'| == |buckets| && buckets'[b] == buckets[b]
  {
    NewBucketsOfSource(x, infos[n].address.service, source);
    NewBucketsOfSource(x, a.service, source);
  }

  /** A known entry gains one reference exactly if the address is dated after its new time, it is untried and has
      less than four references, a number drawn below two to the power of these is zero, and it is not yet in the new
      bucket of its own service and the source; of the rest only its time, services and place in the random order
      change. */
  lemma KnownExactly(k: Hashing, infos: Infos, infos': Infos, buckets: seq<set<Id>>, buckets': seq<set<Id>>, n: Id,
                     a: Address, source: NetAddr, penalty: int, now: int, draw: nat, out: set<Id>)
    requires n in infos && Updates(k, infos, infos', buckets, buckets', n, a, source, penalty, now, draw, out)
    requires k.newBucket(infos[n].address.service, source) < |buckets|
    ensures n in infos'
    ensures var before, after, b := infos[n], infos'[n], k.newBucket(infos[n].address.service, source);
            var newer := a.time != 0 && (after.address.time == 0 || after.address.time < a.time);
            var open := newer && !before.inTried && 1 <= before.refCount < 4;
            var grows := open && draw == 0 && n !in buckets[b];
            && (open ==> draw < (if before.refCount == 1 then 2 else if before.refCount == 2 then 4 else 8))
            && after.refCount == before.refCount + (if grows then 1 else 0)
            && (if grows then n in buckets'[b] else buckets' == buckets)
            && after.source == before.source && after.lastSuccess == before.lastSuccess
            && after.lastTry == before.lastTry && after.attempts == before.attempts && after.inTried == before.inTried
            && after.address.service == before.address.service
            && after.address.services == before.address.services + a.services
  {
    assert Power2(1) == 2 && Power2(2) == 4 && Power2(3) == 8;
  }

  /** A new entry has the address as heard, its time moved back by the penalty but not below zero, no tries, and one
      reference, from the new bucket of its own service and the source. */
  lemma NewExactly(k: Hashing, s: Tables, n: Id, a: Address, source: NetAddr, penalty: int, b: nat)
    requires Added(k, s, n, a, source, penalty) && b < |s.buckets|
    ensures var info := s.infos[n];
            && info.address == a.(time := if a.time >= penalty then a.time - penalty else 0) && info.source == source
            && info.lastSuccess == info.lastTry == info.attempts == 0 && info.refCount == 1 && !info.inTried
    ensures n in s.buckets[b] <==> b == k.newBucket(a.service, source)
  {
  }

  /** An entry may be thrown out exactly if it was not tried in the last minute and is dated more than ten minutes
      ahead, or was not seen for thirty days, or failed three times without ever having succeeded, or failed ten
      times in more than a week. */
  lemma TerribleExactly(info: Info, now: int)
    ensures IsTerrible(info, now) <==>
      && (info.lastTry == 0 || now - info.lastTry > 60)
      && (|| info.address.time > now + 600
          || info.address.time == 0 || now - info.address.time > 2592000
          || (info.lastSuccess == 0 && info.attempts >= 3)
          || (now - info.lastSuccess > 604800 && info.attempts >= 10))
  {
  }

  /** A time heard again moves an entry's time only forward, and only by more than an hour for an address seen in
      the last day, by more than a day for others; the new time is the one heard less the penalty. */
  lemma RefreshedExactly(time: int, a: Address, penalty: int, now: int)
    requires penalty >= 0 && time >= 0
    ensures var r := Refreshed(time, a, penalty, now);
            var step := if now - a.time < 86400 then 3600 else 86400;
            && (if a.time != 0 && (time == 0 || a.time - penalty - time > step)
                then r == (if a.time >= penalty then a.time - penalty else 0) else r == time)
            && (r != time && time != 0 ==> r > time + step)
  {
  }

  /** There is an entry for an address and port exactly if some entry has both, and then mapAddr leads to that one. */
  lemma KnownByAddress(k: Hashing, s: Tables, addr: Service)
    requires Inv(k, s, NONE)
    ensures Known(s, addr) <==> exists n :: n in s.infos && s.infos[n].address.service == addr
    ensures forall n :: n in s.infos && s.infos[n].address.service == addr ==>
      addr.addr in s.byAddr && s.byAddr[addr.addr] == n
  {
    if exists n :: n in s.infos && s.infos[n].address.service == addr {
      var n :| n in s.infos && s.infos[n].address.service == addr;
      assert s.byAddr[addr.addr] == n;
    }
    if Known(s, addr) {
      assert s.infos[s.byAddr[addr.addr]].address.service == addr;
    }
    forall n | n in s.infos && s.infos[n].address.service == addr
      ensures addr.addr in s.byAddr && s.byAddr[addr.addr] == n {
    }
  }

  /** An entry that is thrown out of a full new bucket is its first terrible one or, if there is none, of at most four
      entries of the bucket the first among the least recently seen. */
  lemma VictimExactly(infos: Infos, buckets: seq<set<Id>>, buckets': seq<set<Id>>, b: nat, n: Id, now: int,
                      out: set<Id>, m: Id)
    requires EntersBucket(infos, buckets, buckets', b, n, now, out) && m in out
    ensures |buckets[b]| == 64 && m in buckets[b] && buckets'[b] == buckets[b] - out + {n}
    ensures forall i :: i in buckets[b] ==> i in infos
    ensures (exists i :: i in buckets[b] && IsTerrible(infos[i], now)) ==>
      IsTerrible(infos[m], now) && forall i :: i in buckets[b] && i < m ==> !IsTerrible(infos[i], now)
    ensures (forall i :: i in buckets[b] ==> !IsTerrible(infos[i], now)) ==>
      exists few: set<Id> :: FirstOldestOf(infos, buckets[b], few, m)
  {
    if forall i :: i in buckets[b] ==> !IsTerrible(infos[i], now) {
      var few :| IsOldest(infos, buckets[b], few, m);
      assert FirstOldestOf(infos, buckets[b], few, m);
    }
  }

  ghost predicate FirstOldestOf(infos: Infos, bucket: set<Id>, few: set<Id>, m: Id) {
    && m in few && few <= bucket && 1 <= |few| <= 4
    && forall i :: i in few ==>
         i in infos && m in infos && infos[m].address.time <= infos[i].address.time
         && (i < m ==> infos[m].address.time < infos[i].address.time)
  }

  // ---------------------------------------------------------------- what success does

  /** A tried entry only has its times and attempts changed. */
  lemma TriedStays(k: Hashing, s: Tables, s': Tables, n: Id, time: int)
    requires n in s.infos && k.triedBucket(s.infos[n].address.service) < |s.tried| && s.infos[n].inTried
    requires Promotes(k, s, s', n, time)
    ensures s' == s.(infos := s'.infos) && s'.infos == s.infos[n := Succeeded(s.infos[n], time)]
  {
  }

  /** Everything but the new buckets, the tried bucket of `n` and the entries of `n` and `out` is as before; `n` lies in
      its tried bucket and in no new one. */
  ghost predicate NowTried(k: Hashing, s: Tables, s': Tables, n: Id, out: set<Id>, time: int)
    requires n in s.infos
  {
    var kb := k.triedBucket(s.infos[n].address.service);
    && s'.idCount == s.idCount && s'.byAddr == s.byAddr && s'.random == s.random
    && s'.infos.Keys == s.infos.Keys
    && s'.infos[n] == Succeeded(s.infos[n], time).(refCount := 0, inTried := true)
    && (forall m :: m in s.infos && m != n && m !in out ==> s'.infos[m] == s.infos[m])
    && |s'.tried| == |s.tried| && |s'.buckets| == |s.buckets| && kb < |s.tried| && n in s'.tried[kb]
    && (forall b :: 0 <= b < |s.tried| && b != kb ==> s'.tried[b] == s.tried[b])
    && (forall b :: 0 <= b < |s.buckets| ==> n !in s'.buckets[b])
  }

  /** An untried entry that answered goes to the end of its tried bucket, if that has room. */
  lemma GoesToTried(k: Hashing, s: Tables, s': Tables, n: Id, time: int)
    requires Inv(k, s, NONE) && n in s.infos && !s.infos[n].inTried && Promotes(k, s, s', n, time)
    requires |s.tried[k.triedBucket(s.infos[n].address.service)]| < 64
    ensures NowTried(k, s, s', n, {}, time)
    ensures var kb := k.triedBucket(s.infos[n].address.service); s'.tried[kb] == s.tried[kb] + [n]
    ensures forall b :: 0 <= b < |s.buckets| ==> s'.buckets[b] == s.buckets[b] - {n}
    ensures s'.nTried == s.nTried + 1 && s'.nNew == s.nNew - 1
  {
  }

  /** If it is full, the entry takes the place of another one, `out`, that SelectTried chose. That one becomes a new
      entry again, in its own new bucket `ub` or, where that is full, in one that `n` has left. */
  ghost predicate Exchanged(k: Hashing, s: Tables, s': Tables, n: Id, out: Id, ub: nat)
    requires n in s.infos
  {
    var kb := k.triedBucket(s.infos[n].address.service);
    && out in s.infos && out != n && kb < |s.tried| && kb < |s'.tried| && ub < |s.buckets| == |s'.buckets|
    && multiset(s'.tried[kb]) == multiset(s.tried[kb]) - multiset{out} + multiset{n} && out in s.tried[kb]
    && out in s'.infos && s'.infos[out] == s.infos[out].(refCount := 1, inTried := false)
    && (forall b :: 0 <= b < |s.buckets| ==> s'.buckets[b] == s.buckets[b] - {n} + if b == ub then {out} else {})
    && s'.nTried == s.nTried && s'.nNew == s.nNew
    && var own := k.newBucket(s.infos[out].address.service, s.infos[out].source);
       own < |s.buckets| && if |s.buckets[own] - {n}| < 64 then ub == own else n in s.buckets[ub]
  }

  lemma ExchangesTried(k: Hashing, s: Tables, s': Tables, n: Id, time: int) returns (out: Id, ub: nat)
    requires Inv(k, s, NONE) && n in s.infos && !s.infos[n].inTried && Promotes(k, s, s', n, time)
    requires |s.tried[k.triedBucket(s.infos[n].address.service)]| == 64
    ensures NowTried(k, s, s', n, {out}, time) && Exchanged(k, s, s', n, out, ub)
  {
    var t := s.(infos := s.infos[n := Succeeded(s.infos[n], time)]);
    var kb := k.triedBucket(s.infos[n].address.service);
    var origin: nat :| origin < |s.buckets| && n in s.buckets[origin] && MadeTried(k, t, s', n, origin);
    var bucket, pos :| Replaces(k, t, s', n, origin, bucket, pos);
    out, ub := bucket[pos], EvictTo(k, t, n, bucket[pos], origin);
    InTriedBucket(k, s, kb, bucket, pos);
    ReplacesIs(k, s, s', n, time, origin, bucket, pos, out, ub);
    ReplacedIsTried(k, s, s', n, time, kb, bucket, pos, ub);
    ReplacedIsExchanged(k, s, s', n, time, kb, bucket, pos, ub, origin);
  }

  lemma ReplacesIs(k: Hashing, s: Tables, s': Tables, n: Id, time: int, origin: nat, bucket: seq<Id>, pos: nat,
                   out: Id, ub: nat)
    requires n in s.infos && k.triedBucket(s.infos[n].address.service) < |s.tried| && origin < |s.buckets|
    requires pos < |bucket| && out == bucket[pos] && out in s.infos && out != n
    requires k.newBucket(s.infos[out].address.service, s.infos[out].source) < |s.buckets|
    requires var t := s.(infos := s.infos[n := Succeeded(s.infos[n], time)]);
             Replaces(k, t, s', n, origin, bucket, pos) && ub == EvictTo(k, t, n, out, origin)
    ensures ByReplacing(s, s', n, time, k.triedBucket(s.infos[n].address.service), bucket, pos, ub)
    ensures var own := k.newBucket(s.infos[out].address.service, s.infos[out].source);
            ub == if |s.buckets[own] - {n}| < 64 then own else origin
    ensures multiset(bucket) == multiset(s.tried[k.triedBucket(s.infos[n].address.service)])
  {
  }

  ghost predicate ByReplacing(s: Tables, s': Tables, n: Id, time: int, kb: nat, bucket: seq<Id>, pos: nat, ub: nat)
    requires n in s.infos && kb < |s.tried|
  {
    var t := s.(infos := s.infos[n := Succeeded(s.infos[n], time)], tried := s.tried[kb := bucket]);
    && pos < |bucket| && bucket[pos] in s.infos && bucket[pos] != n && ub < |s.buckets|
    && s' == Replaced(t, n, kb, pos, ub)
  }

  lemma ReplacedIsTried(k: Hashing, s: Tables, s': Tables, n: Id, time: int, kb: nat, bucket: seq<Id>, pos: nat,
                        ub: nat)
    requires n in s.infos && kb < |s.tried| && kb == k.triedBucket(s.infos[n].address.service)
    requires ByReplacing(s, s', n, time, kb, bucket, pos, ub)
    ensures NowTried(k, s, s', n, {bucket[pos]}, time)
  {
    PutInPlace(bucket, pos, n);
  }

  lemma ReplacedIsExchanged(k: Hashing, s: Tables, s': Tables, n: Id, time: int, kb: nat, bucket: seq<Id>, pos: nat,
                            ub: nat, origin: nat)
    requires n in s.infos && kb < |s.tried| && kb == k.triedBucket(s.infos[n].address.service)
    requires ByReplacing(s, s', n, time, kb, bucket, pos, ub)
    requires multiset(bucket) == multiset(s.tried[kb]) && bucket[pos] in s.tried[kb]
    requires origin < |s.buckets| && n in s.buckets[origin]
    requires var own := k.newBucket(s.infos[bucket[pos]].address.service, s.infos[bucket[pos]].source);
             own < |s.buckets| && ub == if |s.buckets[own] - {n}| < 64 then own else origin
    ensures Exchanged(k, s, s', n, bucket[pos], ub)
  {
    PutInPlace(bucket, pos, n);
    var cleared := Cleared(s.buckets, n);
    forall b | 0 <= b < |s.buckets|
      ensures s'.buckets[b] == s.buckets[b] - {n} + if b == ub then {bucket[pos]} else {} {
      assert s'.buckets[b] == if b == ub then cleared[b] + {bucket[pos]} else cleared[b];
    }
  }

  lemma InTriedBucket(k: Hashing, s: Tables, kb: nat, bucket: seq<Id>, pos: nat)
    requires TriedOk(k, s.infos, s.tried) && kb < |s.tried| && multiset(bucket) == multiset(s.tried[kb])
    requires pos < |bucket|
    ensures bucket[pos] in s.tried[kb] && bucket[pos] in s.infos && s.infos[bucket[pos]].inTried
  {
    assert bucket[pos] in multiset(bucket);
    assert BucketOk(k, s.infos, s.tried[kb], kb);
  }

  lemma PutInPlace(q: seq<Id>, pos: nat, n: Id)
    requires pos < |q|
    ensures multiset(q[pos := n]) == multiset(q) - multiset{q[pos]} + multiset{n} && n in q[pos := n]
  {
    assert q[pos := n][pos] == n;
  }

  /** Where an entry that answered stands: tried and successful now, without failures. */
  lemma SucceededMeans(info: Info, time: int)
    requires time > 0
    ensures var r := Succeeded(info, time);
            && r.lastSuccess == r.lastTry == r.address.time == time && r.attempts == 0
            && r == info.(lastSuccess := time, lastTry := time, attempts := 0, address := info.address.(time := time))
            && forall now :: time - 600 <= now <= time + 604800 ==> !IsTerrible(r, now)
  {
  }

  /** GetAddr_ gives away the largest number of addresses that is at most 2500 and at most 23 percent of all. */
  lemma AnswerIsLargest(size: nat, n: nat)
    ensures AnswerSize(size) <= 2500 && 100 * AnswerSize(size) <= 23 * size
    ensures n <= 2500 && 100 * n <= 23 * size ==> n <= AnswerSize(size)
  {
  }
}
