/** The address manager (CAddrMan in src/addrman.h and src/addrman.cpp): every operation keeps the
    invariant of AddrTables. Random choices and the clock are arbitrary. */
module AddrMan {
  import opened Transactions
  import opened AddrTables
  import opened Ordering
  import opened Powers

  const INSPECT_ON_EVICT: nat := 4
  const HORIZON_DAYS: nat := 30
  const RETRIES: nat := 3
  const MAX_FAILURES: nat := 10
  const MIN_FAIL_DAYS: nat := 7
  const GETADDR_MAX_PCT: nat := 23
  const GETADDR_MAX: nat := 2500
  const DAY: nat := 86400

  /** CAddrInfo::IsTerrible. */
  predicate IsTerrible(info: Info, now: int) {
    if info.lastTry != 0 && info.lastTry >= now - 60 then false
    else if info.address.time > now + 600 then true
    else if info.address.time == 0 || now - info.address.time > HORIZON_DAYS * DAY then true
    else if info.lastSuccess == 0 && info.attempts >= RETRIES then true
    else now - info.lastSuccess > MIN_FAIL_DAYS * DAY && info.attempts >= MAX_FAILURES
  }

  /** The time of an entry that is heard of again. */
  function Refreshed(time: int, a: Address, penalty: int, now: int): int {
    var interval := if now - a.time < DAY then 3600 else DAY;
    if a.time != 0 && (time == 0 || time < a.time - interval - penalty) then Penalized(a, penalty) else time
  }

  function Penalized(a: Address, penalty: int): int {
    if a.time - penalty > 0 then a.time - penalty else 0
  }

  /** An entry that stays as it is, apart from its place in the random order. */
  ghost predicate Kept(infos: Infos, infos': Infos, n: Id)
    requires n in infos
  {
    n in infos' && infos'[n] == infos[n].(randomPos := infos'[n].randomPos)
  }

  class AddrMan {
    const k: Hashing
    var idCount: int
    var infos: Infos
    var byAddr: map<NetAddr, Id>
    var random: seq<Id>
    var nTried: int
    var tried: seq<seq<Id>>
    var nNew: int
    var buckets: seq<set<Id>>

    ghost function State(): Tables
      reads this
    {
      Tables(idCount, infos, byAddr, random, nTried, tried, nNew, buckets)
    }

    ghost predicate Valid()
      reads this
    {
      Inv(k, State(), NONE)
    }

    constructor (k: Hashing)
      requires HashingOk(k)
      ensures Valid() && this.k == k && infos == map[]
    {
      this.k := k;
      idCount, infos, byAddr, random, nTried, nNew := 0, map[], map[], [], 0, 0;
      tried := seq(TRIED_BUCKET_COUNT, _ => []);
      buckets := seq(NEW_BUCKET_COUNT, _ => {});
      new;
      assert TriedIds(infos) == {} && NewIds(infos) == {};
    }

    /** Find: the entry of a network address. */
    method Find(addr: NetAddr) returns (r: Option<Id>)
      requires Valid()
      ensures r.Some? ==> r.value in infos && infos[r.value].address.service.addr == addr
      ensures r.Some? ==> addr in byAddr && byAddr[addr] == r.value
      ensures r.None? ==> addr !in byAddr && forall n :: n in infos ==> infos[n].address.service.addr != addr
    {
      if addr !in byAddr { return None; }
      if byAddr[addr] in infos { return Some(byAddr[addr]); }
      assert false;
      return None;
    }

    method Create(a: Address, source: NetAddr) returns (n: Id)
      modifies this
      ensures n == old(idCount)
      ensures State() == old(State()).(idCount := n + 1, byAddr := old(byAddr)[a.service.addr := n],
        infos := old(infos)[n := Info(a, source, 0, 0, 0, 0, false, |old(random)|)], random := old(random) + [n])
    {
      n := idCount;
      idCount := idCount + 1;
      infos := infos[n := Info(a, source, 0, 0, 0, 0, false, -1)];
      byAddr := byAddr[a.service.addr := n];
      infos := infos[n := infos[n].(randomPos := |random|)];
      random := random + [n];
    }

    method SwapRandom(a: nat, b: nat)
      requires a < |random| && b < |random| && random[a] in infos && random[b] in infos
      modifies this`infos, this`random
      ensures State() == Swapped(old(State()), a, b)
    {
      if a == b { return; }
      var m, n := random[a], random[b];
      infos := infos[m := infos[m].(randomPos := b)];
      infos := infos[n := infos[n].(randomPos := a)];
      random := random[a := n];
      random := random[b := m];
    }

    /** Two entries of a tried bucket change places. */
    method Shuffle(kb: nat, i: nat, p: nat)
      requires TriedOk(k, infos, tried) && kb < |tried| && i < |tried[kb]| && p < |tried[kb]|
      modifies this`tried
      ensures TriedOk(k, infos, tried) && tried == old(tried)[kb := SwappedIn(old(tried)[kb], i, p)]
      ensures multiset(tried[kb]) == multiset(old(tried)[kb]) && old(tried)[kb][p] in infos
    {
      assert BucketOk(k, infos, tried[kb], kb);
      ShuffleTriedOk(k, infos, tried, kb, i, p);
      SwapKeepsMultiset(tried[kb], i, p);
      tried := tried[kb := SwappedIn(tried[kb], i, p)];
    }

    /** One round of SelectTried: an entry is drawn and moved to the front. */
    method DrawTried(kb: nat, i: nat, ghost before: seq<Id>, ghost draws0: seq<nat>, ghost j0: nat)
      returns (p: nat, temp: Id, ghost draws: seq<nat>, ghost j: nat)
      requires TriedOk(k, infos, tried) && kb < |tried| && i < |tried[kb]|
      requires InspectedTo(infos, before, draws0, tried[kb], i, j0)
      modifies this`tried
      ensures TriedOk(k, infos, tried) && tried == old(tried)[kb := tried[kb]] && temp in infos
      ensures multiset(tried[kb]) == multiset(old(tried)[kb]) && |tried[kb]| == |old(tried)[kb]|
      ensures InspectedTo(infos, before, draws, tried[kb], i + 1, j) && draws == draws0 + [p] && p < |tried[kb]|
      ensures i > 0 ==> j0 < i && old(tried)[kb][j0] in infos
      ensures j == if i == 0 || infos[temp].lastSuccess < infos[old(tried)[kb][j0]].lastSuccess then i else j0
      ensures tried[kb][j] == if j == i then temp else old(tried)[kb][j0]
    {
      p := RandomFrom(i, |tried[kb]|);
      temp := tried[kb][p];
      ghost var bucket := tried[kb];
      Shuffle(kb, i, p);
      DrawnNext(before, draws0, p);
      OldestNext(infos, bucket, i, p, j0);
      draws := draws0 + [p];
      j := if i == 0 || infos[temp].lastSuccess < infos[bucket[j0]].lastSuccess then i else j0;
    }

    /** SelectTried: shuffles the front of a tried bucket and picks the position from which it drew the entry
        with the oldest success. */
    method SelectTried(kb: nat) returns (pos: nat, ghost draws: seq<nat>)
      requires TriedOk(k, infos, tried) && kb < |tried| && tried[kb] != []
      modifies this`tried
      ensures TriedOk(k, infos, tried) && |tried| == |old(tried)| && pos < |tried[kb]| && tried[kb][pos] in infos
      ensures tried == old(tried)[kb := tried[kb]] && multiset(tried[kb]) == multiset(old(tried)[kb])
      ensures Chosen(infos, old(tried)[kb], draws, tried[kb], pos)
    {
      var i, oldest := 0, None;
      ghost var j := 0;
      pos, draws := 0, [];
      while i < INSPECT_ON_EVICT && i < |tried[kb]|
        invariant TriedOk(k, infos, tried) && |tried| == |old(tried)| && |tried[kb]| == |old(tried)[kb]|
        invariant tried == old(tried)[kb := tried[kb]] && multiset(tried[kb]) == multiset(old(tried)[kb])
        invariant i <= INSPECT_ON_EVICT && i <= |tried[kb]| && pos < |tried[kb]|
        invariant InspectedTo(infos, old(tried)[kb], draws, tried[kb], i, j)
        invariant if i == 0 then oldest.None? else oldest == Some(tried[kb][j]) && pos == draws[j]
      {
        var p, temp;
        p, temp, draws, j := DrawTried(kb, i, old(tried)[kb], draws, j);
        if oldest.None? || infos[temp].lastSuccess < infos[oldest.value].lastSuccess {
          oldest, pos := Some(temp), p;
        }
        i := i + 1;
      }
      assert BucketOk(k, infos, tried[kb], kb);
    }

    /** The removal at the end of both halves of ShrinkNew. */
    method DropFrom(b: nat, n: Id, ghost pending: Id)
      requires Inv(k, State(), pending) && b < |buckets| && n in buckets[b] && n != pending
      modifies this`infos, this`random, this`byAddr, this`nNew, this`buckets
      ensures n in old(infos) && 0 <= old(infos)[n].randomPos < |old(random)|
      ensures old(random)[old(infos)[n].randomPos] == n && old(random)[|old(random)| - 1] in old(infos)
      ensures State() == Dropped(old(State()), n, b)
      ensures Inv(k, State(), pending)
    {
      DropKeepsInv(k, State(), pending, n, b);
      RemoveRef(b, n);
    }

    method RemoveRef(b: nat, n: Id)
      requires b < |buckets| && n in infos && 0 <= infos[n].randomPos < |random|
      requires random[infos[n].randomPos] == n && random[|random| - 1] in infos
      modifies this`infos, this`random, this`byAddr, this`nNew, this`buckets
      ensures State() == Dropped(old(State()), n, b)
    {
      ghost var s := State();
      infos := infos[n := infos[n].(refCount := infos[n].refCount - 1)];
      if infos[n].refCount == 0 {
        var addr := infos[n].address.service.addr;
        SwapRandom(infos[n].randomPos, |random| - 1);
        random := random[..|random| - 1];
        byAddr := byAddr - {addr};
        infos := infos - {n};
        nNew := nNew - 1;
        assert infos == Deleted(s, n, b).infos;
      }
      buckets := buckets[b := buckets[b] - {n}];
    }

    /** The first entry of a bucket that may be deleted. */
    method FirstTerrible(order: seq<Id>, now: int) returns (i: nat)
      requires forall j :: 0 <= j < |order| ==> order[j] in infos
      ensures i <= |order| && (i < |order| ==> IsTerrible(infos[order[i]], now))
      ensures forall j :: 0 <= j < i ==> !IsTerrible(infos[order[j]], now)
    {
      i := 0;
      while i < |order| && !IsTerrible(infos[order[i]], now)
        invariant i <= |order| && forall j :: 0 <= j < i ==> !IsTerrible(infos[order[j]], now)
      {
        i := i + 1;
      }
    }

    /** The least recently seen of the entries at four positions, the first of these on a tie. */
    method OldestAt(order: seq<Id>, picks: set<nat>) returns (o: nat)
      requires forall j :: 0 <= j < |order| ==> order[j] in infos
      requires picks != {} && forall j :: j in picks ==> j < |order|
      ensures o in picks && o < |order|
      ensures forall j :: j in picks ==> infos[order[o]].address.time <= infos[order[j]].address.time
      ensures forall j :: j in picks && j < o ==> infos[order[o]].address.time < infos[order[j]].address.time
    {
      var i: nat, best: Option<nat> := 0, None;
      while i < |order|
        invariant i <= |order|
        invariant best.None? ==> forall j :: j in picks ==> j >= i
        invariant best.Some? ==> best.value in picks && best.value < i
        invariant best.Some? ==> forall j :: j in picks && j < i ==>
          infos[order[best.value]].address.time <= infos[order[j]].address.time
        invariant best.Some? ==> forall j :: j in picks && j < best.value ==>
          infos[order[best.value]].address.time < infos[order[j]].address.time
      {
        if i in picks && (best.None? || infos[order[i]].address.time < infos[order[best.value]].address.time) {
          best := Some(i);
        }
        i := i + 1;
      }
      ghost var some := Pick(picks);
      o := best.value;
    }

    /** The choice of ShrinkNew: the first terrible entry if there is any, otherwise the least
        recently seen of at most four drawn at random. */
    method ChooseVictim(bucket: set<Id>, now: int) returns (r: int, out: Id)
      requires bucket != {} && forall n :: n in bucket ==> n in infos
      ensures out in bucket && r in {0, 1}
      ensures r == 0 ==> FirstToGo(infos, bucket, now, out)
      ensures r == 1 ==> NoneTerrible(infos, bucket, now) && OldestOfFew(infos, bucket, out)
    {
      var order := Ascending(bucket);
      AscendingLists(bucket);
      assert forall j :: 0 <= j < |order| ==> order[j] in order;
      var i := FirstTerrible(order, now);
      if i < |order| {
        BeforeInOrder(infos, bucket, order, now, i);
        return 0, order[i];
      }
      BeyondOrder(infos, bucket, order, now);
      var n0 := RandomFrom(0, |order|);
      var n1 := RandomFrom(0, |order|);
      var n2 := RandomFrom(0, |order|);
      var n3 := RandomFrom(0, |order|);
      var o := OldestAt(order, {n0, n1, n2, n3});
      FewDrawn(infos, bucket, order, {n0, n1, n2, n3}, o);
      return 1, order[o];
    }

    /** ShrinkNew: takes one entry out of a bucket, a terrible one if there is any. */
    method ShrinkNew(b: nat, now: int, ghost pending: Id) returns (r: int, ghost out: Id)
      requires Inv(k, State(), pending) && b < |buckets| && buckets[b] != {} && pending !in buckets[b]
      modifies this`infos, this`random, this`byAddr, this`nNew, this`buckets
      ensures out in old(buckets)[b] && out in old(infos) && 0 <= old(infos)[out].randomPos < |old(random)|
      ensures old(random)[old(infos)[out].randomPos] == out && old(random)[|old(random)| - 1] in old(infos)
      ensures State() == Dropped(old(State()), out, b) && Inv(k, State(), pending)
      ensures forall n :: n in old(buckets)[b] ==> n in old(infos)
      ensures r == 0 ==> FirstToGo(old(infos), old(buckets)[b], now, out)
      ensures r != 0 ==> NoneTerrible(old(infos), old(buckets)[b], now) && OldestOfFew(old(infos), old(buckets)[b], out)
    {
      assert NewBucketOk(infos, buckets[b]);
      var victim;
      r, victim := ChooseVictim(buckets[b], now);
      out := victim;
      DropFrom(b, victim, pending);
    }

    /** The first loop of MakeTried: the entry leaves every new bucket, and loses its references. */
    method LeaveNew(n: Id)
      requires n in infos && infos[n].refCount == RefCount(buckets, n)
      modifies this`infos, this`buckets
      ensures infos == old(infos)[n := old(infos)[n].(refCount := 0)] && buckets == Cleared(old(buckets), n)
    {
      var b := 0;
      ghost var was := buckets;
      while b < |buckets|
        invariant b <= |buckets| == |was|
        invariant forall c :: 0 <= c < |was| ==> buckets[c] == if c < b then was[c] - {n} else was[c]
        invariant n in infos && infos == old(infos)[n := old(infos)[n].(refCount := infos[n].refCount)]
        invariant infos[n].refCount == old(infos)[n].refCount - RefCount(was[..b], n)
      {
        RefCountPrefix(was, n, b);
        if n in buckets[b] {
          infos := infos[n := infos[n].(refCount := infos[n].refCount - 1)];
        }
        buckets := buckets[b := buckets[b] - {n}];
        b := b + 1;
      }
      assert was[..b] == was;
    }

    /** MakeTried: a new entry moves to its tried bucket, where it may take another entry's place. */
    method MakeTried(n: Id, origin: nat)
      requires Valid() && n in infos && !infos[n].inTried && infos[n].lastSuccess > 0
      requires origin < |buckets| && n in buckets[origin]
      modifies this`infos, this`buckets, this`tried, this`nTried, this`nNew
      ensures Valid() && MadeTried(k, old(State()), State(), n, origin)
    {
      ghost var s := State();
      assert CountOk(infos[n], RefCount(buckets, n));
      LeaveNew(n);
      nNew := nNew - 1;
      var kb := k.triedBucket(infos[n].address.service);
      if |tried[kb]| < TRIED_BUCKET_SIZE {
        tried := tried[kb := tried[kb] + [n]];
        nTried := nTried + 1;
        infos := infos[n := infos[n].(inTried := true)];
        assert State() == Promoted(k, s, n);
        PromoteKeepsInv(k, s, n);
        return;
      }
      TriedOkSame(k, s.infos, infos, tried);
      ghost var mid, pos, draws := Evict(n, kb, origin, s);
      EvictKeepsInv(k, s, s.infos[n := s.infos[n].(refCount := 0)], n, kb, mid, pos, origin, draws);
    }

    /** The rest of MakeTried, when the tried bucket is full. */
    method Evict(n: Id, kb: nat, origin: nat, ghost s: Tables)
      returns (ghost mid: seq<seq<Id>>, ghost pos: nat, ghost draws: seq<nat>)
      requires HashingOk(k) && TriedOk(k, infos, tried) && n in s.infos && !s.infos[n].inTried
      requires origin < |s.buckets| == NEW_BUCKET_COUNT && kb < |tried| && tried[kb] != []
      requires State() == s.(infos := s.infos[n := s.infos[n].(refCount := 0)], buckets := Cleared(s.buckets, n),
        nNew := s.nNew - 1)
      modifies this`infos, this`buckets, this`tried, this`nNew
      ensures TriedOk(k, s.infos[n := s.infos[n].(refCount := 0)], mid) && kb < |mid| && pos < |mid[kb]|
      ensures mid == s.tried[kb := mid[kb]] && multiset(mid[kb]) == multiset(s.tried[kb]) && mid[kb][pos] in s.infos
      ensures var ub := EvictTo(k, s, n, mid[kb][pos], origin);
              ub < |s.buckets| && State() == Replaced(s.(tried := mid), n, kb, pos, ub)
      ensures Chosen(s.infos, s.tried[kb], draws, mid[kb], pos)
    {
      var p;
      p, draws := SelectTried(kb);
      assert BucketOk(k, infos, tried[kb], kb);
      mid, pos := tried, p;
      ChosenSame(infos, s.infos, s.tried[kb], draws, mid[kb], pos);
      Exchange(n, kb, p, origin, s.(tried := tried));
    }

    /** The entry at `pos` goes back to a new bucket, and `n` takes its place. */
    method Exchange(n: Id, kb: nat, pos: nat, origin: nat, ghost t: Tables)
      requires n in t.infos && kb < |t.tried| && pos < |t.tried[kb]| && t.tried[kb][pos] in t.infos
        && t.tried[kb][pos] != n
      requires origin < |t.buckets|
      requires k.newBucket(t.infos[t.tried[kb][pos]].address.service, t.infos[t.tried[kb][pos]].source) < |t.buckets|
      requires State() == t.(infos := t.infos[n := t.infos[n].(refCount := 0)], buckets := Cleared(t.buckets, n),
        nNew := t.nNew - 1)
      modifies this`infos, this`buckets, this`tried, this`nNew
      ensures State() == Replaced(t, n, kb, pos, EvictTo(k, t, n, t.tried[kb][pos], origin))
    {
      var out := tried[kb][pos];
      var ub := k.newBucket(infos[out].address.service, infos[out].source);
      infos := infos[out := infos[out].(inTried := false, refCount := 1)];
      if |buckets[ub]| < NEW_BUCKET_SIZE {
        buckets := buckets[ub := buckets[ub] + {out}];
      } else {
        buckets := buckets[origin := buckets[origin] + {out}];
      }
      nNew := nNew + 1;
      tried := tried[kb := tried[kb][pos := n]];
      infos := infos[n := infos[n].(inTried := true)];
      ExchangedInfos(t.infos, n, out);
    }

    /** The search of Good_ for a new bucket that holds the entry, from a random bucket on. It
        always finds one. */
    method FindBucket(n: Id) returns (b: nat)
      requires Valid() && n in infos && !infos[n].inTried
      ensures b < |buckets| && n in buckets[b]
    {
      var start := RandomFrom(0, NEW_BUCKET_COUNT);
      var i := 0;
      while i < NEW_BUCKET_COUNT
        invariant i <= NEW_BUCKET_COUNT
        invariant forall j :: 0 <= j < i ==> n !in buckets[Slot(j, start)]
      {
        b := Slot(i, start);
        if n in buckets[b] { return; }
        i := i + 1;
      }
      assert CountOk(infos[n], RefCount(buckets, n));
      NotFoundAround(buckets, n, start);
      assert false;
    }

    /** Good_: the address answered; an entry that is not tried yet becomes tried. */
    method Good(addr: Service, time: int)
      requires Valid() && time > 0
      modifies this
      ensures Valid()
      ensures !Known(old(State()), addr) ==> State() == old(State())
      ensures Known(old(State()), addr) ==> Promotes(k, old(State()), State(), old(byAddr)[addr.addr], time)
    {
      var r := Find(addr.addr);
      if r.None? { return; }
      var n := r.value;
      if infos[n].address.service != addr { return; }
      ghost var s := State();
      UpdateKeepsInv(k, s, NONE, n, Succeeded(infos[n], time));
      infos := infos[n := Succeeded(infos[n], time)];
      assert State() == s.(infos := s.infos[n := Succeeded(s.infos[n], time)]);
      if infos[n].inTried { return; }
      var b := FindBucket(n);
      MakeTried(n, b);
    }

    /** Attempt_. */
    method Attempt(addr: Service, time: int)
      requires Valid() && time >= 0
      modifies this`infos
      ensures Valid()
      ensures !Known(old(State()), addr) ==> infos == old(infos)
      ensures Known(old(State()), addr) ==> var n := old(byAddr)[addr.addr];
        infos == old(infos)[n := old(infos)[n].(lastTry := time, attempts := old(infos)[n].attempts + 1)]
    {
      var r := Find(addr.addr);
      if r.None? { return; }
      var n := r.value;
      if infos[n].address.service != addr { return; }
      ghost var s := State();
      var info := infos[n].(lastTry := time, attempts := infos[n].attempts + 1);
      UpdateKeepsInv(k, s, NONE, n, info);
      infos := infos[n := info];
      assert State() == s.(infos := s.infos[n := info]);
    }

    /** Connected_. */
    method Connected(addr: Service, time: int)
      requires Valid()
      modifies this`infos
      ensures Valid()
      ensures !Known(old(State()), addr) ==> infos == old(infos)
      ensures Known(old(State()), addr) ==> var n := old(byAddr)[addr.addr]; var a := old(infos)[n].address;
        infos == old(infos)[n := old(infos)[n].(address := if time - a.time > 1200 then a.(time := time) else a)]
    {
      var r := Find(addr.addr);
      if r.None? { return; }
      var n := r.value;
      if infos[n].address.service != addr { return; }
      if time - infos[n].address.time > 1200 {
        ghost var s := State();
        var info := infos[n].(address := infos[n].address.(time := time));
        UpdateKeepsInv(k, s, NONE, n, info);
        infos := infos[n := info];
        assert State() == s.(infos := s.infos[n := info]);
      }
    }

    method Draw(i: nat) returns (ghost p: nat)
      requires Valid() && i < |random|
      modifies this`infos, this`random
      ensures Valid() && i <= p < |old(random)| && old(random)[i] in old(infos) && old(random)[p] in old(infos)
      ensures State() == Swapped(old(State()), i, p)
    {
      var q := RandomFrom(i, |random|);
      SwapKeepsInv(k, State(), NONE, i, q);
      p := q;
      SwapRandom(i, q);
    }

    /** GetAddr_: the addresses of distinct entries, drawn by shuffling the front of vRandom. */
    method GetAddr() returns (addrs: seq<Address>)
      requires Valid()
      modifies this`infos, this`random
      ensures Valid() && infos.Keys == old(infos).Keys && forall n :: n in old(infos) ==> Kept(old(infos), infos, n)
      ensures |addrs| == AnswerSize(|old(random)|) <= |random|
      ensures forall i :: 0 <= i < |addrs| ==> random[i] in infos && addrs[i] == infos[random[i]].address
      ensures forall i, j :: 0 <= i < j < |addrs| ==> addrs[i].service.addr != addrs[j].service.addr
    {
      var nodes := AnswerSize(|random|);
      addrs := [];
      var i := 0;
      while i < nodes
        invariant Valid() && infos.Keys == old(infos).Keys && |random| == |old(random)|
        invariant forall n :: n in old(infos) ==> Kept(old(infos), infos, n)
        invariant i <= nodes <= |random| && |addrs| == i
        invariant forall j :: 0 <= j < i ==> random[j] in infos && addrs[j] == infos[random[j]].address
      {
        ghost var before := State();
        ghost var p := Draw(i);
        DrawKeeps(old(infos), before, i, p);
        AnswerStep(before, State(), addrs, i, p);
        addrs := addrs + [infos[random[i]].address];
        i := i + 1;
      }
      AnswersDistinct(k, State(), addrs);
    }

    /** A full bucket loses an entry. */
    method MakeRoom(n: Id, b: nat, now: int) returns (ghost out: set<Id>)
      requires n in infos && Inv(k, State(), n) && b < |buckets| && n !in buckets[b]
      modifies this`infos, this`random, this`byAddr, this`nNew, this`buckets
      ensures Inv(k, State(), n) && n !in out && |out| <= 1
      ensures OthersKept(old(infos), infos, out) && LostPlace(old(infos), infos, out)
      ensures out <= old(buckets)[b] && buckets == old(buckets)[b := old(buckets)[b] - out]
        && |buckets[b]| < NEW_BUCKET_SIZE
      ensures out != {} <==> |old(buckets)[b]| == NEW_BUCKET_SIZE
      ensures Victims(old(infos), old(buckets)[b], now, out)
    {
      out := {};
      assert NewBucketOk(infos, buckets[b]);
      if |buckets[b]| == NEW_BUCKET_SIZE {
        ghost var s := State();
        var r;
        ghost var victim;
        r, victim := ShrinkNew(b, now, n);
        out := {victim};
        DropKeepsOthers(s, victim, b);
        SmallerSet(s.buckets[b], victim);
      } else {
        assert buckets[b] - {} == buckets[b];
      }
    }

    /** The end of Add_: one more reference, in a bucket that does not hold the entry yet. */
    method Place(n: Id, b: nat, now: int) returns (ghost out: set<Id>)
      requires n in infos && !infos[n].inTried && Inv(k, Raised(State(), n), n) && b < |buckets| && n !in buckets[b]
      modifies this`infos, this`random, this`byAddr, this`nNew, this`buckets
      ensures Valid() && n !in out && |out| <= 1
      ensures OthersKept(old(infos), infos, {n} + out) && LostPlace(old(infos), infos, out)
      ensures EntersBucket(old(infos), old(buckets), buckets, b, n, now, out)
      ensures n in infos
      ensures infos[n] == old(infos)[n].(refCount := old(infos)[n].refCount + 1, randomPos := infos[n].randomPos)
    {
      infos := infos[n := infos[n].(refCount := infos[n].refCount + 1)];
      ghost var raised := infos;
      assert State() == Raised(old(State()), n);
      assert NewBucketOk(infos, buckets[b]);
      out := Fill(n, b, now);
      EntersSame(raised, old(infos), old(buckets), buckets, b, n, now, out);
      PlaceKeeps(old(infos), raised, infos, n, out);
    }

    /** Room is made if the bucket is full, and the entry goes in. */
    method Fill(n: Id, b: nat, now: int) returns (ghost out: set<Id>)
      requires n in infos && !infos[n].inTried && Inv(k, State(), n) && b < |buckets| && n !in buckets[b]
      modifies this`infos, this`random, this`byAddr, this`nNew, this`buckets
      ensures Valid() && n !in out && |out| <= 1
      ensures OthersKept(old(infos), infos, out) && LostPlace(old(infos), infos, out)
      ensures EntersBucket(old(infos), old(buckets), buckets, b, n, now, out)
    {
      out := MakeRoom(n, b, now);
      assert Kept(old(infos), infos, n);
      Insert(n, b);
    }

    method Insert(n: Id, b: nat)
      requires n in infos && !infos[n].inTried && Inv(k, State(), n) && b < |buckets|
      requires n !in buckets[b] && |buckets[b]| < NEW_BUCKET_SIZE
      modifies this`buckets
      ensures Valid() && buckets == old(buckets)[b := old(buckets)[b] + {n}]
    {
      ghost var t := State();
      InsertKeepsInv(k, t, n, b);
      buckets := buckets[b := buckets[b] + {n}];
      assert State() == t.(buckets := t.buckets[b := t.buckets[b] + {n}]);
    }

    /** What Add_ does to an entry it knows, and whether the entry may get another reference. */
    method Hear(n: Id, a: Address, penalty: int, now: int) returns (more: bool, ghost draw: nat)
      requires Valid() && n in infos
      modifies this`infos
      ensures Valid() && infos == old(infos)[n := Heard(old(infos)[n], a, penalty, now)]
      ensures more <==> MayGrow(infos[n], a) && draw == 0
      ensures MayGrow(infos[n], a) ==> draw < Power2(infos[n].refCount)
    {
      draw := 0;
      ghost var s := State();
      var info := Heard(infos[n], a, penalty, now);
      UpdateKeepsInv(k, s, NONE, n, info);
      infos := infos[n := info];
      assert State() == s.(infos := s.infos[n := info]);
      assert CountOk(info, RefCount(buckets, n));
      if a.time == 0 || (info.address.time != 0 && a.time <= info.address.time) { return false, 0; }
      if info.inTried { return false, 0; }
      if info.refCount == NEW_BUCKETS_PER_ADDRESS { return false, 0; }
      var factor, i := 1, 0;
      while i < info.refCount
        invariant 0 <= i <= info.refCount && factor == Power2(i)
      {
        factor := factor * 2;
        i := i + 1;
      }
      if factor > 1 {
        var random := RandomFrom(0, factor);
        if random != 0 { return false, random; }
      }
      return true, 0;
    }

    /** Create as Add_ uses it: an entry without references, counted as new. */
    method CreateNew(a: Address, source: NetAddr, penalty: int) returns (n: Id)
      requires Valid() && a.service.addr !in byAddr
      modifies this
      ensures n == old(idCount) && n !in old(infos) && buckets == old(buckets)
        && byAddr == old(byAddr)[a.service.addr := n]
      ensures infos == old(infos)[n :=
        Info(a.(time := Penalized(a, penalty)), source, 0, 0, 0, 0, false, |old(random)|)]
      ensures Inv(k, Raised(State(), n), n) && forall b :: 0 <= b < |buckets| ==> n !in buckets[b]
    {
      ghost var s := State();
      CreateKeepsInv(k, s, a.(time := Penalized(a, penalty)), source);
      n := Create(a, source);
      infos := infos[n := infos[n].(address := a.(time := Penalized(a, penalty)))];
      nNew := nNew + 1;
      assert Raised(State(), n) == Created(s, a.(time := Penalized(a, penalty)), source);
    }

    /** The last part of Add_ for an entry it knows: a reference from the bucket that its address and the
        source select, unless that bucket holds it already. */
    method AddReference(n: Id, source: NetAddr, now: int) returns (ghost out: set<Id>)
      requires Valid() && n in infos && !infos[n].inTried && infos[n].refCount < NEW_BUCKETS_PER_ADDRESS
      modifies this`infos, this`random, this`byAddr, this`nNew, this`buckets
      ensures Valid() && |out| <= 1 && n !in out
      ensures LostPlace(old(infos), infos, out) && OthersKept(old(infos), infos, {n} + out)
      ensures n in infos && infos[n] == old(infos)[n].(refCount := infos[n].refCount, randomPos := infos[n].randomPos)
      ensures var b := k.newBucket(old(infos)[n].address.service, source);
              if b < |old(buckets)| && n !in old(buckets)[b]
              then infos[n].refCount == old(infos)[n].refCount + 1
                   && EntersBucket(old(infos), old(buckets), buckets, b, n, now, out)
              else infos[n].refCount == old(infos)[n].refCount && buckets == old(buckets) && out == {}
    {
      out := {};
      var b := k.newBucket(infos[n].address.service, source);
      if n !in buckets[b] {
        RefKeepsInv(k, State(), n);
        out := Place(n, b, now);
      }
    }

    method AddKnown(n: Id, a: Address, source: NetAddr, penalty: int, now: int)
      returns (ghost out: set<Id>, ghost draw: nat)
      requires Valid() && n in infos
      modifies this`infos, this`random, this`byAddr, this`nNew, this`buckets
      ensures Valid() && n in infos && |out| <= 1 && n !in out
      ensures Updates(k, old(infos), infos, old(buckets), buckets, n, a, source, penalty, now, draw, out)
      ensures LostPlace(old(infos), infos, out) && OthersKept(old(infos), infos, {n} + out)
    {
      out := {};
      var more;
      more, draw := Hear(n, a, penalty, now);
      ghost var mid := infos;
      if more {
        out := AddReference(n, source, now);
        EntersSame(mid, old(infos), old(buckets), buckets, k.newBucket(mid[n].address.service, source), n, now, out);
      }
      HeardKeeps(old(infos), mid, infos, n, out);
    }

    method AddUnknown(a: Address, source: NetAddr, penalty: int, now: int) returns (ghost out: set<Id>)
      requires Valid() && a.service.addr !in byAddr
      modifies this
      ensures Valid() && Added(k, State(), old(idCount), a, source, penalty) && |out| <= 1
      ensures EntersBucket(old(infos), old(buckets), buckets, k.newBucket(a.service, source), old(idCount), now, out)
      ensures LostPlace(old(infos), infos, out) && OthersKept(old(infos), infos, out)
    {
      var n := CreateNew(a, source, penalty);
      var b := k.newBucket(infos[n].address.service, source);
      ghost var mid := infos;
      out := Place(n, b, now);
      EntersSame(mid, old(infos), old(buckets), buckets, b, n, now, out);
      HeardKeeps(old(infos), mid, infos, n, out);
    }

    /** Add_. A new entry enters the bucket that address and source select. A known one enters it exactly if the
        information is newer, the entry is not tried and has less than four references, the draw of one in two to
        the number of references hits, and it is not in there yet. No other bucket changes, and only an entry
        chosen as ShrinkNew does leaves that one, exactly if it is full. */
    method Add(a: Address, source: NetAddr, penalty: int, now: int, routable: bool)
      returns (isNew: bool, ghost out: set<Id>, ghost draw: nat)
      requires Valid()
      modifies this
      ensures Valid() && |out| <= 1
      ensures isNew <==> routable && a.service.port != 0 && a.service.addr !in old(byAddr)
      ensures !routable || a.service.port == 0 ==> State() == old(State()) && out == {}
      ensures isNew ==> Added(k, State(), old(idCount), a, source, penalty)
      ensures isNew ==>
        EntersBucket(old(infos), old(buckets), buckets, k.newBucket(a.service, source), old(idCount), now, out)
      ensures routable && a.service.port != 0 && !isNew ==>
        old(byAddr)[a.service.addr] in old(infos)
        && Updates(k, old(infos), infos, old(buckets), buckets, old(byAddr)[a.service.addr], a, source, penalty, now,
                   draw, out)
      ensures LostPlace(old(infos), infos, out)
      ensures OthersKept(old(infos), infos,
        (if a.service.addr in old(byAddr) then {old(byAddr)[a.service.addr]} else {}) + out)
    {
      out, draw := {}, 0;
      if !routable || a.service.port == 0 { return false, out, 0; }
      var r := Find(a.service.addr);
      if r.Some? {
        out, draw := AddKnown(r.value, a, source, penalty, now);
        return false, out, draw;
      }
      out := AddUnknown(a, source, penalty, now);
      assert {} + out == out;
      return true, out, 0;
    }
  }

  /** The entries of `out`, at most one, leave a bucket as ShrinkNew chooses: the first terrible one, or where none
      is terrible the least recently seen of a few. */
  ghost predicate Victims(infos: Infos, bucket: set<Id>, now: int, out: set<Id>) {
    && (forall n :: n in bucket ==> n in infos)
    && forall m :: m in out ==>
         FirstToGo(infos, bucket, now, m) || (NoneTerrible(infos, bucket, now) && OldestOfFew(infos, bucket, m))
  }

  lemma VictimsSame(infos: Infos, infos': Infos, bucket: set<Id>, now: int, out: set<Id>)
    requires Victims(infos, bucket, now, out)
    requires forall n :: n in bucket ==> n in infos' && infos'[n] == infos[n]
    ensures Victims(infos', bucket, now, out)
  {
    forall m | m in out
      ensures FirstToGo(infos', bucket, now, m)
              || (NoneTerrible(infos', bucket, now) && OldestOfFew(infos', bucket, m)) {
      if !FirstToGo(infos, bucket, now, m) {
        var few :| IsOldest(infos, bucket, few, m);
        assert IsOldest(infos', bucket, few, m);
      }
    }
  }

  /** `n` enters the new bucket `b`, which loses the entries of `out` exactly if it was full; the other buckets stay. */
  ghost predicate EntersBucket(infos: Infos, buckets: seq<set<Id>>, buckets': seq<set<Id>>, b: nat, n: Id, now: int,
                               out: set<Id>) {
    && b < |buckets| && n !in buckets[b] && out <= buckets[b] && buckets' == buckets[b := buckets[b] - out + {n}]
    && (out != {} <==> |buckets[b]| == NEW_BUCKET_SIZE) && Victims(infos, buckets[b], now, out)
  }

  lemma EntersSame(infos: Infos, infos': Infos, buckets: seq<set<Id>>, buckets': seq<set<Id>>, b: nat, n: Id, now: int,
                   out: set<Id>)
    requires forall m :: m != n ==>
      (m in infos && m in infos' ==> infos[m] == infos'[m]) && (m in infos <==> m in infos')
    ensures EntersBucket(infos, buckets, buckets', b, n, now, out) ==>
      EntersBucket(infos', buckets, buckets', b, n, now, out)
  {
    if EntersBucket(infos, buckets, buckets', b, n, now, out) {
      VictimsSame(infos, infos', buckets[b], now, out);
    }
  }

  lemma PlaceKeeps(infos: Infos, raised: Infos, infos': Infos, n: Id, out: set<Id>)
    requires n in infos && raised == WithRefs(infos, n, infos[n].refCount + 1) && n !in out
    requires OthersKept(raised, infos', out) && LostPlace(raised, infos', out)
    ensures OthersKept(infos, infos', {n} + out) && LostPlace(infos, infos', out)
    ensures n in infos' && infos'[n] == infos[n].(refCount := infos[n].refCount + 1, randomPos := infos'[n].randomPos)
  {
    assert Kept(raised, infos', n);
    forall m | m in infos && m !in {n} + out ensures Kept(infos, infos', m) {
      assert Kept(raised, infos', m);
    }
  }

  lemma HeardKeeps(infos: Infos, mid: Infos, infos': Infos, n: Id, out: set<Id>)
    requires n in mid && mid == infos[n := mid[n]] && n !in out
    requires OthersKept(mid, infos', {n} + out) && LostPlace(mid, infos', out)
    ensures OthersKept(infos, infos', {n} + out) && LostPlace(infos, infos', out)
    ensures n !in infos ==> OthersKept(infos, infos', out)
  {
    forall m | m in infos && m !in {n} + out ensures Kept(infos, infos', m) {
      assert Kept(mid, infos', m);
    }
  }

  ghost predicate OthersKept(infos: Infos, infos': Infos, except: set<Id>) {
    forall n :: n in infos && n !in except ==> Kept(infos, infos', n)
  }

  /** Entries that left a bucket lost one reference, and are gone exactly if it was the last. */
  ghost predicate LostPlace(infos: Infos, infos': Infos, out: set<Id>) {
    forall n :: n in out && n in infos ==>
      (if infos[n].refCount == 1 then n !in infos'
       else n in infos' && infos'[n] == infos[n].(refCount := infos[n].refCount - 1, randomPos := infos'[n].randomPos))
  }

  lemma DropKeepsOthers(s: Tables, n: Id, b: nat)
    requires n in s.infos && b < |s.buckets| && 0 <= s.infos[n].randomPos < |s.random|
    requires s.random[s.infos[n].randomPos] == n && s.random[|s.random| - 1] in s.infos
    ensures OthersKept(s.infos, Dropped(s, n, b).infos, {n}) && LostPlace(s.infos, Dropped(s, n, b).infos, {n})
  {
  }

  function Heard(info: Info, a: Address, penalty: int, now: int): Info {
    info.(address := info.address.(time := Refreshed(info.address.time, a, penalty, now),
                                   services := info.address.services + a.services))
  }

  /** Only an entry with newer information, not tried and with room may get another reference. */
  ghost predicate MayGrow(info: Info, a: Address) {
    && a.time != 0 && (info.address.time == 0 || info.address.time < a.time)
    && !info.inTried && 1 <= info.refCount < NEW_BUCKETS_PER_ADDRESS
  }

  /** The entry of an address added for the first time. */
  ghost predicate Added(k: Hashing, s: Tables, n: Id, a: Address, source: NetAddr, penalty: int) {
    && n in s.infos
    && s.infos[n] == Info(a.(time := Penalized(a, penalty)), source, 0, 0, 0, 1, false, s.infos[n].randomPos)
    && forall b :: 0 <= b < |s.buckets| ==> (n in s.buckets[b] <==> b == k.newBucket(a.service, source))
  }

  /** What Add_ does to an entry `n` that it knows: `draw` is the number drawn for another reference. */
  ghost predicate Updates(k: Hashing, infos: Infos, infos': Infos, buckets: seq<set<Id>>, buckets': seq<set<Id>>, n: Id,
                          a: Address, source: NetAddr, penalty: int, now: int, draw: nat, out: set<Id>)
    requires n in infos
  {
    var heard, b := Heard(infos[n], a, penalty, now), k.newBucket(infos[n].address.service, source);
    && n in infos' && infos'[n] == heard.(refCount := infos'[n].refCount, randomPos := infos'[n].randomPos)
    && (MayGrow(heard, a) ==> draw < Power2(heard.refCount))
    && if MayGrow(heard, a) && draw == 0 && b < |buckets| && n !in buckets[b]
       then infos'[n].refCount == heard.refCount + 1 && EntersBucket(infos, buckets, buckets', b, n, now, out)
       else infos'[n].refCount == heard.refCount && buckets' == buckets && out == {}
  }

  function AnswerSize(size: nat): (n: nat)
    ensures n <= size && n <= GETADDR_MAX
  {
    var n := GETADDR_MAX_PCT * size / 100;
    if n > GETADDR_MAX then GETADDR_MAX else n
  }

  lemma DrawKeeps(infos: Infos, s: Tables, a: nat, b: nat)
    requires RandomOk(s.infos, s.random) && a < |s.random| && b < |s.random|
    requires s.infos.Keys == infos.Keys && forall n :: n in infos ==> Kept(infos, s.infos, n)
    ensures var t := Swapped(s, a, b); t.infos.Keys == infos.Keys && |t.random| == |s.random|
    ensures var t := Swapped(s, a, b); forall n :: n in infos ==> Kept(infos, t.infos, n)
  {
    var t := Swapped(s, a, b);
    assert t.infos.Keys == infos.Keys;
    forall n | n in infos ensures Kept(infos, t.infos, n) {
      assert Kept(infos, s.infos, n);
    }
  }

  lemma AnswerStep(s: Tables, t: Tables, addrs: seq<Address>, i: nat, p: nat)
    requires RandomOk(s.infos, s.random) && i == |addrs| <= p < |s.random| && t == Swapped(s, i, p)
    requires forall j :: 0 <= j < i ==> s.random[j] in s.infos && addrs[j] == s.infos[s.random[j]].address
    ensures t.random[i] in t.infos
    ensures forall j :: 0 <= j < i ==> t.random[j] in t.infos && addrs[j] == t.infos[t.random[j]].address
  {
  }

  lemma AnswersDistinct(k: Hashing, s: Tables, addrs: seq<Address>)
    requires Inv(k, s, NONE) && |addrs| <= |s.random|
    requires forall i :: 0 <= i < |addrs| ==> s.random[i] in s.infos && addrs[i] == s.infos[s.random[i]].address
    ensures forall i, j :: 0 <= i < j < |addrs| ==> addrs[i].service.addr != addrs[j].service.addr
  {
    forall i, j | 0 <= i < j < |addrs| ensures addrs[i].service.addr != addrs[j].service.addr {
      assert s.infos[s.random[i]].randomPos == i && s.infos[s.random[j]].randomPos == j;
      var m, n := s.random[i], s.random[j];
      assert m in s.infos && n in s.infos && m != n;
      assert s.byAddr[s.infos[m].address.service.addr] == m && s.byAddr[s.infos[n].address.service.addr] == n;
    }
  }

  function Slot(j: nat, start: nat): (b: nat)
    ensures b < NEW_BUCKET_COUNT
  {
    (j + start) % NEW_BUCKET_COUNT
  }

  lemma NotFoundAround(buckets: seq<set<Id>>, n: Id, start: nat)
    requires |buckets| == NEW_BUCKET_COUNT && start < NEW_BUCKET_COUNT
    requires forall j :: 0 <= j < NEW_BUCKET_COUNT ==> n !in buckets[Slot(j, start)]
    ensures RefCount(buckets, n) == 0
  {
    forall b | 0 <= b < |buckets| ensures n !in buckets[b] {
      var j := if b >= start then b - start else b + NEW_BUCKET_COUNT - start;
      assert Slot(j, start) == b;
    }
    RefCountZero(buckets, n);
  }

  /** The manager has an entry for exactly this address and port. */
  ghost predicate Known(s: Tables, addr: Service) {
    addr.addr in s.byAddr && s.byAddr[addr.addr] in s.infos && s.infos[s.byAddr[addr.addr]].address.service == addr
  }

  function Succeeded(info: Info, time: int): Info {
    info.(lastSuccess := time, lastTry := time, address := info.address.(time := time), attempts := 0)
  }

  /** What Good_ does to a known entry. */
  ghost predicate Promotes(k: Hashing, s: Tables, s': Tables, n: Id, time: int)
    requires n in s.infos && k.triedBucket(s.infos[n].address.service) < |s.tried|
  {
    var t := s.(infos := s.infos[n := Succeeded(s.infos[n], time)]);
    if s.infos[n].inTried then s' == t
    else exists origin: nat :: origin < |s.buckets| && n in s.buckets[origin] && MadeTried(k, t, s', n, origin)
  }

  lemma ExchangedInfos(infos: Infos, n: Id, out: Id)
    requires n in infos && out in infos && n != out
    ensures infos[n := infos[n].(refCount := 0)][out := infos[out].(inTried := false, refCount := 1)]
                 [n := infos[n].(refCount := 0).(inTried := true)]
         == infos[n := AsTried(infos[n])][out := AsNew(infos[out])]
  {
  }

  /** Whichever entry makes way, the bucket it goes back to has room for it. */
  lemma EvictKeepsInv(k: Hashing, s: Tables, infos: Infos, n: Id, kb: nat, tried: seq<seq<Id>>, pos: nat, origin: nat,
                      draws: seq<nat>)
    requires Inv(k, s, NONE) && n in s.infos && !s.infos[n].inTried && s.infos[n].lastSuccess > 0
    requires origin < |s.buckets| && n in s.buckets[origin] && kb == k.triedBucket(s.infos[n].address.service)
    requires infos == s.infos[n := s.infos[n].(refCount := 0)] && TriedOk(k, infos, tried) && pos < |tried[kb]|
    requires tried == s.tried[kb := tried[kb]] && multiset(tried[kb]) == multiset(s.tried[kb])
    requires Chosen(s.infos, s.tried[kb], draws, tried[kb], pos)
    ensures tried[kb][pos] in s.infos && tried[kb][pos] != n && |Cleared(s.buckets, n)[origin]| < NEW_BUCKET_SIZE
    ensures k.newBucket(s.infos[tried[kb][pos]].address.service, s.infos[tried[kb][pos]].source) < |s.buckets|
    ensures var ub := EvictTo(k, s, n, tried[kb][pos], origin);
            ub < |s.buckets| && var t := Replaced(s.(tried := tried), n, kb, pos, ub);
            Inv(k, t, NONE) && Replaces(k, s, t, n, origin, tried[kb], pos)
  {
    assert BucketOk(k, infos, tried[kb], kb);
    OriginHasRoom(s.infos, s.buckets, n, origin);
    TriedOkSame(k, infos, s.infos, tried);
    assert Inv(k, s.(tried := tried), NONE);
    ReplaceKeepsInv(k, s.(tried := tried), n, kb, pos, EvictTo(k, s, n, tried[kb][pos], origin));
  }

  /** The new bucket an evicted entry goes to: its own, or the one the promoted entry came from. */
  ghost function EvictTo(k: Hashing, s: Tables, n: Id, out: Id, origin: nat): nat
    requires out in s.infos
  {
    var ub := k.newBucket(s.infos[out].address.service, s.infos[out].source);
    if ub < |s.buckets| && |s.buckets[ub] - {n}| < NEW_BUCKET_SIZE then ub else origin
  }

  /** What MakeTried does. */
  ghost predicate MadeTried(k: Hashing, s: Tables, s': Tables, n: Id, origin: nat)
    requires n in s.infos && k.triedBucket(s.infos[n].address.service) < |s.tried|
  {
    if |s.tried[k.triedBucket(s.infos[n].address.service)]| < TRIED_BUCKET_SIZE then s' == Promoted(k, s, n)
    else exists bucket, pos :: Replaces(k, s, s', n, origin, bucket, pos)
  }

  ghost predicate Replaces(k: Hashing, s: Tables, s': Tables, n: Id, origin: nat, bucket: seq<Id>, pos: nat)
    requires n in s.infos && k.triedBucket(s.infos[n].address.service) < |s.tried|
  {
    var kb := k.triedBucket(s.infos[n].address.service);
    && multiset(bucket) == multiset(s.tried[kb]) && pos < |bucket| && bucket[pos] in s.infos
    && (exists draws :: Chosen(s.infos, s.tried[kb], draws, bucket, pos))
    && var ub := EvictTo(k, s, n, bucket[pos], origin);
       ub < |s.buckets| && s' == Replaced(s.(tried := s.tried[kb := bucket]), n, kb, pos, ub)
  }

  /** Draw `i` is a position from `i` on. */
  predicate DrawsOk(size: nat, draws: seq<nat>) {
    |draws| <= size && forall i :: 0 <= i < |draws| ==> i <= draws[i] < size
  }

  /** The bucket after the first `n` draws: each entry drawn changes places with the next one of the front. */
  function Drawn(bucket: seq<Id>, draws: seq<nat>, n: nat): (r: seq<Id>)
    requires DrawsOk(|bucket|, draws) && n <= |draws|
    ensures |r| == |bucket|
  {
    if n == 0 then bucket else SwappedIn(Drawn(bucket, draws, n - 1), n - 1, draws[n - 1])
  }

  /** Of the first `m` entries, the one at `j` has the oldest success, and is the first such. */
  ghost predicate FirstOldest(infos: Infos, bucket: seq<Id>, m: nat, j: nat) {
    && j < m <= |bucket| && (forall i :: 0 <= i < m ==> bucket[i] in infos)
    && (forall i :: 0 <= i < m ==> infos[bucket[j]].lastSuccess <= infos[bucket[i]].lastSuccess)
    && (forall i :: 0 <= i < j ==> infos[bucket[j]].lastSuccess < infos[bucket[i]].lastSuccess)
  }

  /** After `i` rounds. */
  ghost predicate InspectedTo(infos: Infos, before: seq<Id>, draws: seq<nat>, after: seq<Id>, i: nat, j: nat) {
    && DrawsOk(|before|, draws) && |draws| == i && after == Drawn(before, draws, i)
    && (i > 0 ==> FirstOldest(infos, after, i, j))
  }

  /** The position that SelectTried picks: the one from which the oldest of up to four entries was drawn. */
  ghost predicate Chosen(infos: Infos, before: seq<Id>, draws: seq<nat>, after: seq<Id>, pos: nat) {
    && DrawsOk(|before|, draws) && |draws| == Min(4, |before|) && after == Drawn(before, draws, |draws|)
    && exists j: nat :: FirstOldest(infos, after, |draws|, j) && pos == draws[j]
  }

  lemma ChosenSame(infos: Infos, infos': Infos, before: seq<Id>, draws: seq<nat>, after: seq<Id>, pos: nat)
    requires Chosen(infos, before, draws, after, pos)
    requires forall n :: n in infos ==> n in infos' && infos'[n].lastSuccess == infos[n].lastSuccess
    ensures Chosen(infos', before, draws, after, pos)
  {
    var j: nat :| FirstOldest(infos, after, |draws|, j) && pos == draws[j];
    FirstOldestSame(infos, infos', after, |draws|, j);
  }

  lemma FirstOldestSame(infos: Infos, infos': Infos, bucket: seq<Id>, m: nat, j: nat)
    requires FirstOldest(infos, bucket, m, j)
    requires forall n :: n in infos ==> n in infos' && infos'[n].lastSuccess == infos[n].lastSuccess
    ensures FirstOldest(infos', bucket, m, j)
  {
    forall i | 0 <= i < m
      ensures bucket[i] in infos' && infos'[bucket[i]].lastSuccess == infos[bucket[i]].lastSuccess {
      var n := bucket[i];
      assert n in infos;
    }
  }

  lemma {:induction false} DrawnPrefix(bucket: seq<Id>, draws: seq<nat>, p: nat, n: nat)
    requires DrawsOk(|bucket|, draws + [p]) && n <= |draws|
    ensures DrawsOk(|bucket|, draws) && Drawn(bucket, draws + [p], n) == Drawn(bucket, draws, n)
  {
    assert forall i :: 0 <= i < |draws| ==> (draws + [p])[i] == draws[i];
    if n > 0 {
      DrawnPrefix(bucket, draws, p, n - 1);
    }
  }

  lemma DrawnNext(bucket: seq<Id>, draws: seq<nat>, p: nat)
    requires DrawsOk(|bucket|, draws) && |draws| <= p < |bucket|
    ensures DrawsOk(|bucket|, draws + [p])
    ensures Drawn(bucket, draws + [p], |draws| + 1) == SwappedIn(Drawn(bucket, draws, |draws|), |draws|, p)
  {
    DrawnPrefix(bucket, draws, p, |draws|);
  }

  /** The front stays when an entry from further on is drawn. */
  lemma OldestNext(infos: Infos, bucket: seq<Id>, i: nat, p: nat, j: nat)
    requires i <= p < |bucket| && bucket[p] in infos && (i > 0 ==> FirstOldest(infos, bucket, i, j))
    ensures var after := SwappedIn(bucket, i, p);
            && after[i] == bucket[p] && (i == 0 ==> FirstOldest(infos, after, 1, 0))
            && (i > 0 ==>
                  FirstOldest(infos, after, i + 1,
                              if infos[bucket[p]].lastSuccess < infos[bucket[j]].lastSuccess then i else j)
                  && after[j] == bucket[j])
  {
  }

  /** The entry that is evicted is the one found oldest exactly if that one was drawn from its own place. */
  lemma EvictsOldestExactly(k: Hashing, infos: Infos, tried: seq<seq<Id>>, kb: nat, draws: seq<nat>, j: nat)
    requires TriedOk(k, infos, tried) && kb < |tried| && j < |draws| && DrawsOk(|tried[kb]|, draws)
    ensures tried[kb][draws[j]] == tried[kb][j] <==> draws[j] == j
  {
    assert BucketOk(k, infos, tried[kb], kb);
  }

  /** Two entries, the one with the older success at the end: drawn first, it stays, and the other one goes. */
  lemma YoungerEvicted(infos: Infos, a: Id, b: Id)
    requires a in infos && b in infos && infos[b].lastSuccess < infos[a].lastSuccess
    ensures Chosen(infos, [a, b], [1, 1], [b, a], 1) && [b, a][1] == a
  {
    var draws: seq<nat> := [1, 1];
    assert Drawn([a, b], draws, 0) == [a, b];
    assert Drawn([a, b], draws, 1) == [b, a];
    assert Drawn([a, b], draws, 2) == [b, a];
    assert FirstOldest(infos, [b, a], 2, 0) && draws[0] == 1;
  }

  /** The terrible entry with the least id. */
  ghost predicate FirstToGo(infos: Infos, bucket: set<Id>, now: int, out: Id)
    requires forall n :: n in bucket ==> n in infos
  {
    out in bucket && IsTerrible(infos[out], now) && forall n :: n in bucket && IsTerrible(infos[n], now) ==> out <= n
  }

  ghost predicate NoneTerrible(infos: Infos, bucket: set<Id>, now: int)
    requires forall n :: n in bucket ==> n in infos
  {
    forall n :: n in bucket ==> !IsTerrible(infos[n], now)
  }

  /** The least recently seen of one to four entries of the bucket, the least id on a tie. */
  ghost predicate OldestOfFew(infos: Infos, bucket: set<Id>, out: Id)
    requires forall n :: n in bucket ==> n in infos
  {
    exists few: set<Id> :: IsOldest(infos, bucket, few, out)
  }

  ghost predicate IsOldest(infos: Infos, bucket: set<Id>, few: set<Id>, out: Id)
    requires forall n :: n in bucket ==> n in infos
  {
    && few <= bucket && |few| <= 4 && out in few
    && forall n :: n in few ==>
         infos[out].address.time < infos[n].address.time
           || (infos[out].address.time == infos[n].address.time && out <= n)
  }

  lemma BeforeInOrder(infos: Infos, bucket: set<Id>, order: seq<Id>, now: int, i: nat)
    requires forall n :: n in bucket ==> n in infos
    requires StrictlyAscending(order) && (forall n :: n in order <==> n in bucket) && i < |order|
    requires forall j :: 0 <= j < |order| ==> order[j] in infos
    requires IsTerrible(infos[order[i]], now) && forall j :: 0 <= j < i ==> !IsTerrible(infos[order[j]], now)
    ensures FirstToGo(infos, bucket, now, order[i])
  {
    forall n | n in bucket && IsTerrible(infos[n], now) ensures order[i] <= n {
      assert n in order;
    }
    assert order[i] in order;
  }

  lemma BeyondOrder(infos: Infos, bucket: set<Id>, order: seq<Id>, now: int)
    requires forall n :: n in bucket ==> n in infos
    requires forall n :: n in order <==> n in bucket
    requires forall j :: 0 <= j < |order| ==> order[j] in infos && !IsTerrible(infos[order[j]], now)
    ensures NoneTerrible(infos, bucket, now)
  {
    forall n | n in bucket ensures !IsTerrible(infos[n], now) {
      assert n in order;
    }
  }

  lemma FewDrawn(infos: Infos, bucket: set<Id>, order: seq<Id>, picks: set<nat>, o: nat)
    requires forall n :: n in bucket ==> n in infos
    requires StrictlyAscending(order) && (forall n :: n in order <==> n in bucket)
    requires forall j :: 0 <= j < |order| ==> order[j] in infos
    requires |picks| <= 4 && o in picks && (forall j :: j in picks ==> j < |order|)
    requires forall j :: j in picks ==> infos[order[o]].address.time <= infos[order[j]].address.time
    requires forall j :: j in picks && j < o ==> infos[order[o]].address.time < infos[order[j]].address.time
    ensures OldestOfFew(infos, bucket, order[o])
  {
    var few := set j: nat | j in picks && j < |order| :: order[j];
    ImageSmaller(order, picks);
    forall n | n in few ensures n in bucket {
      assert n in order;
    }
    assert order[o] in few;
    assert IsOldest(infos, bucket, few, order[o]);
  }

  lemma {:induction false} ImageSmaller(order: seq<Id>, picks: set<nat>)
    ensures |set j: nat | j in picks && j < |order| :: order[j]| <= |picks|
  {
    var image := set j: nat | j in picks && j < |order| :: order[j];
    if picks != {} {
      var p := Pick(picks);
      ImageSmaller(order, picks - {p});
      var rest := set j: nat | j in picks - {p} && j < |order| :: order[j];
      if p < |order| {
        assert image == rest + {order[p]};
        LargerSet(rest, order[p]);
      } else {
        assert image == rest;
      }
    }
  }

  lemma SwapKeepsMultiset(bucket: seq<Id>, i: nat, j: nat)
    requires i < |bucket| && j < |bucket|
    ensures multiset(SwappedIn(bucket, i, j)) == multiset(bucket)
  {
  }

  /** GetRandInt: some number of the range. */
  method RandomFrom(lo: nat, hi: nat) returns (r: nat)
    requires lo < hi
    ensures lo <= r < hi
  {
    r :| lo <= r < hi;
  }
}
