/** Which blocks are asked from which peer (CNodeState, MarkBlockAsReceived, AddBlockToQueue,
    MarkBlockAsInFlight, FinalizeNode and the getdata loop in src/main.cpp). A list iterator is the
    id of a list entry. */
module Download {
  import opened Transactions

  type NodeId = int

  const MAX_IN_TRANSIT: nat := 128

  /** An entry of a std::list; an entry in flight also has the time of its request. */
  datatype Slot = Slot(id: nat, hash: Hash, time: int, before: int)

  type List = seq<Slot>

  datatype Where = Where(peer: NodeId, id: nat)

  type Index = map<Hash, Where>
  type Lists = map<NodeId, List>

  // ---------------------------------------------------------------- lists and the map that points into them

  ghost predicate Holds(l: List, id: nat, h: Hash) {
    exists i :: 0 <= i < |l| && l[i].id == id && l[i].hash == h
  }

  /** Every entry of a peer's list is the one the map points to. */
  ghost predicate ListOk(p: NodeId, l: List, index: Index, next: nat) {
    && (forall i :: 0 <= i < |l| ==> SlotOk(p, l[i], index, next))
    && (forall i, j :: 0 <= i < j < |l| ==> l[i].id != l[j].id)
  }

  ghost predicate SlotOk(p: NodeId, e: Slot, index: Index, next: nat) {
    e.hash in index && index[e.hash] == Where(p, e.id) && e.id < next
  }

  ghost predicate PointsOk(lists: Lists, index: Index, h: Hash)
    requires h in index
  {
    index[h].peer in lists && Holds(lists[index[h].peer], index[h].id, h)
  }

  /** The map points to exactly the entries of the lists, each in the list of a live peer. */
  ghost predicate ListsOk(lists: Lists, index: Index, next: nat) {
    && (forall p :: p in lists ==> ListOk(p, lists[p], index, next))
    && (forall h :: h in index ==> PointsOk(lists, index, h))
  }

  function Hashes(l: List): (r: seq<Hash>)
    ensures |r| == |l|
  {
    seq(|l|, i requires 0 <= i < |l| => l[i].hash)
  }

  /** Every hash is listed at most once over all peers. */
  lemma ListedOnce(lists: Lists, index: Index, next: nat, p: NodeId, i: nat, q: NodeId, j: nat)
    requires ListsOk(lists, index, next) && p in lists && q in lists && i < |lists[p]| && j < |lists[q]|
    requires lists[p][i].hash == lists[q][j].hash
    ensures p == q && i == j
  {
    assert ListOk(p, lists[p], index, next) && ListOk(q, lists[q], index, next);
    assert SlotOk(p, lists[p][i], index, next) && SlotOk(q, lists[q][j], index, next);
  }

  lemma ListsLater(lists: Lists, index: Index, next: nat)
    requires ListsOk(lists, index, next)
    ensures ListsOk(lists, index, next + 1)
  {
    forall p | p in lists ensures ListOk(p, lists[p], index, next + 1) {
      assert ListOk(p, lists[p], index, next);
      forall i | 0 <= i < |lists[p]| ensures SlotOk(p, lists[p][i], index, next + 1) {
        assert SlotOk(p, lists[p][i], index, next);
      }
    }
  }

  // ---------------------------------------------------------------- inserting at the end

  lemma AppendOk(lists: Lists, index: Index, next: nat, p: NodeId, e: Slot)
    requires ListsOk(lists, index, next) && p in lists && e.hash !in index && e.id == next
    ensures ListsOk(lists[p := lists[p] + [e]], index[e.hash := Where(p, next)], next + 1)
  {
    var lists', index' := lists[p := lists[p] + [e]], index[e.hash := Where(p, next)];
    forall q | q in lists' ensures ListOk(q, lists'[q], index', next + 1) {
      assert ListOk(q, lists[q], index, next);
      forall i | 0 <= i < |lists'[q]| ensures SlotOk(q, lists'[q][i], index', next + 1) {
        if i < |lists[q]| {
          assert SlotOk(q, lists[q][i], index, next);
        }
      }
      forall i, j | 0 <= i < j < |lists'[q]| ensures lists'[q][i].id != lists'[q][j].id {
        assert SlotOk(q, lists[q][i], index, next);
      }
    }
    forall h | h in index' ensures PointsOk(lists', index', h) {
      if h == e.hash {
        assert lists'[p][|lists[p]|] == e;
      } else {
        assert PointsOk(lists, index, h);
        var l := lists[index[h].peer];
        var i :| 0 <= i < |l| && l[i].id == index[h].id && l[i].hash == h;
        assert lists'[index[h].peer][i] == l[i];
      }
    }
  }

  // ---------------------------------------------------------------- erasing by iterator

  /** list::erase. */
  function Erase(l: List, id: nat): List {
    if l == [] then [] else if l[0].id == id then l[1..] else [l[0]] + Erase(l[1..], id)
  }

  /** The list without a hash. */
  function Without(l: List, h: Hash): List {
    if l == [] then [] else if l[0].hash == h then Without(l[1..], h) else [l[0]] + Without(l[1..], h)
  }

  lemma {:induction false} WithoutAbsent(l: List, h: Hash)
    requires forall i :: 0 <= i < |l| ==> l[i].hash != h
    ensures Without(l, h) == l
  {
    if l != [] {
      WithoutAbsent(l[1..], h);
    }
  }

  /** Where ids and hashes go together, erasing the entry is dropping the hash. */
  lemma {:induction false} EraseIsWithout(l: List, id: nat, h: Hash)
    requires forall i :: 0 <= i < |l| ==> (l[i].id == id <==> l[i].hash == h)
    requires forall i, j :: 0 <= i < j < |l| ==> l[i].id != l[j].id
    ensures Erase(l, id) == Without(l, h)
    ensures |Erase(l, id)| == |l| - if Holds(l, id, h) then 1 else 0
  {
    if l != [] {
      if l[0].id == id {
        WithoutAbsent(l[1..], h);
        assert Holds(l, id, h);
      } else {
        EraseIsWithout(l[1..], id, h);
        if Holds(l, id, h) {
          var i :| 0 <= i < |l| && l[i].id == id && l[i].hash == h;
          assert l[1..][i - 1] == l[i];
        }
      }
    }
  }

  lemma {:induction false} WithoutKeeps(l: List, h: Hash, e: Slot)
    ensures e in Without(l, h) <==> e in l && e.hash != h
  {
    if l != [] {
      WithoutKeeps(l[1..], h, e);
    }
  }

  lemma {:induction false} WithoutUnique(l: List, h: Hash)
    requires forall i, j :: 0 <= i < j < |l| ==> l[i].id != l[j].id
    ensures forall i, j :: 0 <= i < j < |Without(l, h)| ==> Without(l, h)[i].id != Without(l, h)[j].id
  {
    if l != [] {
      WithoutUnique(l[1..], h);
      var r := Without(l[1..], h);
      forall j | 0 <= j < |r| ensures r[j].id != l[0].id {
        WithoutKeeps(l[1..], h, r[j]);
        assert r[j] in l[1..];
      }
    }
  }

  lemma WithoutOk(p: NodeId, l: List, index: Index, next: nat, h: Hash)
    requires ListOk(p, l, index, next)
    ensures ListOk(p, Without(l, h), index - {h}, next)
  {
    var r := Without(l, h);
    WithoutUnique(l, h);
    forall i | 0 <= i < |r| ensures SlotOk(p, r[i], index - {h}, next) {
      WithoutKeeps(l, h, r[i]);
      assert r[i] in l;
      var j :| 0 <= j < |l| && l[j] == r[i];
      assert SlotOk(p, l[j], index, next);
    }
  }

  /** Erasing the entry of a hash from its peer's list drops the hash from every list. */
  lemma EraseOk(lists: Lists, index: Index, next: nat, h: Hash)
    requires ListsOk(lists, index, next) && h in index
    ensures index[h].peer in lists
    ensures var p := index[h].peer;
            && Erase(lists[p], index[h].id) == Without(lists[p], h)
            && |Without(lists[p], h)| == |lists[p]| - 1
            && ListsOk(lists[p := Without(lists[p], h)], index - {h}, next)
    ensures forall q :: q in lists && q != index[h].peer ==> Without(lists[q], h) == lists[q]
  {
    var p := index[h].peer;
    assert PointsOk(lists, index, h);
    EraseHere(p, lists[p], index, next, h);
    forall q | q in lists && q != p ensures Without(lists[q], h) == lists[q] {
      NotElsewhere(q, lists[q], index, next, h);
    }
    var lists' := lists[p := Without(lists[p], h)];
    forall q | q in lists' ensures ListOk(q, lists'[q], index - {h}, next) {
      WithoutOk(q, lists[q], index, next, h);
    }
    forall x | x in index - {h} ensures PointsOk(lists', index - {h}, x) {
      assert PointsOk(lists, index, x);
      StillHeld(lists[index[x].peer], index[x].id, x, h);
    }
  }

  lemma EraseHere(p: NodeId, l: List, index: Index, next: nat, h: Hash)
    requires ListOk(p, l, index, next) && h in index && index[h].peer == p && Holds(l, index[h].id, h)
    ensures Erase(l, index[h].id) == Without(l, h) && |Without(l, h)| == |l| - 1
  {
    var i :| 0 <= i < |l| && l[i].id == index[h].id && l[i].hash == h;
    forall j | 0 <= j < |l| ensures l[j].id == index[h].id <==> l[j].hash == h {
      assert SlotOk(p, l[j], index, next);
    }
    EraseIsWithout(l, index[h].id, h);
  }

  lemma NotElsewhere(q: NodeId, l: List, index: Index, next: nat, h: Hash)
    requires ListOk(q, l, index, next) && (h in index ==> index[h].peer != q)
    ensures Without(l, h) == l
  {
    forall i | 0 <= i < |l| ensures l[i].hash != h {
      assert SlotOk(q, l[i], index, next);
    }
    WithoutAbsent(l, h);
  }

  lemma StillHeld(l: List, id: nat, x: Hash, h: Hash)
    requires Holds(l, id, x) && x != h
    ensures Holds(Without(l, h), id, x)
  {
    var i :| 0 <= i < |l| && l[i].id == id && l[i].hash == x;
    WithoutKeeps(l, h, l[i]);
    var r := Without(l, h);
    var j :| 0 <= j < |r| && r[j] == l[i];
  }

  // ---------------------------------------------------------------- removing a peer

  /** The map without the hashes of a list. */
  ghost function WithoutAll(index: Index, l: List): Index {
    map h | h in index && h !in Hashes(l) :: index[h]
  }

  lemma RemoveOk(lists: Lists, index: Index, next: nat, p: NodeId)
    requires ListsOk(lists, index, next) && p in lists
    ensures ListsOk(lists - {p}, WithoutAll(index, lists[p]), next)
    ensures forall h :: h in WithoutAll(index, lists[p]) <==> h in index && index[h].peer != p
  {
    var l, index' := lists[p], WithoutAll(index, lists[p]);
    forall h | h in index ensures h in Hashes(l) <==> index[h].peer == p {
      OwnHashes(lists, index, next, p, h);
    }
    forall q | q in lists - {p} ensures ListOk(q, lists[q], index', next) {
      assert ListOk(q, lists[q], index, next);
      forall i | 0 <= i < |lists[q]| ensures SlotOk(q, lists[q][i], index', next) {
        assert SlotOk(q, lists[q][i], index, next);
      }
    }
    forall h | h in index' ensures PointsOk(lists - {p}, index', h) {
      assert PointsOk(lists, index, h);
    }
  }

  lemma OwnHashes(lists: Lists, index: Index, next: nat, p: NodeId, h: Hash)
    requires ListsOk(lists, index, next) && p in lists && h in index
    ensures h in Hashes(lists[p]) <==> index[h].peer == p
  {
    var l := lists[p];
    assert ListOk(p, l, index, next) && PointsOk(lists, index, h);
    if index[h].peer == p {
      var i :| 0 <= i < |l| && l[i].id == index[h].id && l[i].hash == h;
      assert Hashes(l)[i] == h;
    }
    if h in Hashes(l) {
      var i :| 0 <= i < |Hashes(l)| && Hashes(l)[i] == h;
      assert SlotOk(p, l[i], index, next);
    }
  }

  // ---------------------------------------------------------------- the state

  /** The download part of CNodeState. */
  datatype Peer = Peer(toDownload: List, nToDownload: int, inFlight: List, nInFlight: int, lastReceive: int)

  type Peers = map<NodeId, Peer>

  ghost function Queues(peers: Peers): Lists {
    map p | p in peers :: peers[p].toDownload
  }

  ghost function Flights(peers: Peers): Lists {
    map p | p in peers :: peers[p].inFlight
  }

  ghost predicate CountsOk(p: Peer) {
    p.nToDownload == |p.toDownload| && p.nInFlight == |p.inFlight|
  }

  /** Each hash is queued or in flight at most once over all peers, both maps point to the exact list
      entry of a live peer, and counters are list lengths. */
  ghost predicate Inv(peers: Peers, queued: Index, flying: Index, next: nat) {
    && ListsOk(Queues(peers), queued, next) && ListsOk(Flights(peers), flying, next)
    && queued.Keys !! flying.Keys
    && forall p :: p in peers ==> CountsOk(peers[p])
  }

  /** No peer has more than 128 blocks in flight. */
  ghost predicate Capped(peers: Peers) {
    forall p :: p in peers ==> |peers[p].inFlight| <= MAX_IN_TRANSIT
  }

  lemma QueueUpdate(peers: Peers, p: NodeId, x: Peer)
    requires p in peers
    ensures Queues(peers[p := x]) == Queues(peers)[p := x.toDownload]
    ensures Flights(peers[p := x]) == Flights(peers)[p := x.inFlight]
    ensures x.toDownload == peers[p].toDownload ==> Queues(peers[p := x]) == Queues(peers)
    ensures x.inFlight == peers[p].inFlight ==> Flights(peers[p := x]) == Flights(peers)
  {
  }

  /** A hash has left every list of every peer; nothing else has changed. */
  ghost predicate Received(peers: Peers, peers': Peers, h: Hash) {
    && peers'.Keys == peers.Keys
    && forall p :: p in peers ==> PeerReceived(peers, peers', h, p)
  }

  ghost predicate PeerReceived(peers: Peers, peers': Peers, h: Hash, p: NodeId)
    requires p in peers
  {
    p in peers' && peers'[p].toDownload == Without(peers[p].toDownload, h)
      && peers'[p].inFlight == Without(peers[p].inFlight, h)
  }

  /** nLastBlockReceive is set for the peer that sent the block `h`, if it was in flight there; `from` is -1, no
      peer's number, when none sent it. */
  ghost predicate TimesReceived(peers: Peers, peers': Peers, flying: Index, h: Hash, from: NodeId, now: int) {
    forall p :: p in peers ==>
      p in peers' && peers'[p].lastReceive
        == if h in flying && flying[h].peer == p && p == from then now else peers[p].lastReceive
  }

  /** The peer without an entry of its queue. */
  function Dequeued(x: Peer, id: nat): Peer {
    x.(toDownload := Erase(x.toDownload, id), nToDownload := x.nToDownload - 1)
  }

  /** The peer without an entry in flight. */
  function Landed(x: Peer, id: nat, last: int): Peer {
    x.(inFlight := Erase(x.inFlight, id), nInFlight := x.nInFlight - 1, lastReceive := last)
  }

  lemma UnqueueOk(peers: Peers, queued: Index, flying: Index, next: nat, h: Hash)
    requires Inv(peers, queued, flying, next) && h in queued
    ensures queued[h].peer in peers
    ensures var p := queued[h].peer;
            var x' := Dequeued(peers[p], queued[h].id);
            Inv(peers[p := x'], queued - {h}, flying, next) && Received(peers, peers[p := x'], h)
  {
    EraseOk(Queues(peers), queued, next, h);
    var p := queued[h].peer;
    var x' := Dequeued(peers[p], queued[h].id);
    QueueUpdate(peers, p, x');
    forall q | q in peers ensures Without(peers[q].inFlight, h) == peers[q].inFlight {
      assert ListOk(q, Flights(peers)[q], flying, next);
      NotElsewhere(q, peers[q].inFlight, flying, next, h);
    }
    forall q | q in peers && q != p ensures Without(peers[q].toDownload, h) == peers[q].toDownload {
      assert q in Queues(peers);
    }
  }

  lemma PointedAt(peers: Peers, queued: Index, flying: Index, next: nat, h: Hash)
    requires Inv(peers, queued, flying, next) && h in flying
    ensures flying[h].peer in peers
  {
    assert PointsOk(Flights(peers), flying, h);
  }

  lemma UnflyOk(peers: Peers, queued: Index, flying: Index, next: nat, h: Hash, last: int)
    requires Inv(peers, queued, flying, next) && h in flying
    ensures flying[h].peer in peers
    ensures var p := flying[h].peer;
            var x' := Landed(peers[p], flying[h].id, last);
            Inv(peers[p := x'], queued, flying - {h}, next) && Received(peers, peers[p := x'], h)
  {
    EraseOk(Flights(peers), flying, next, h);
    var p := flying[h].peer;
    var x' := Landed(peers[p], flying[h].id, last);
    QueueUpdate(peers, p, x');
    forall q | q in peers ensures Without(peers[q].toDownload, h) == peers[q].toDownload {
      assert ListOk(q, Queues(peers)[q], queued, next);
      NotElsewhere(q, peers[q].toDownload, queued, next, h);
    }
    forall q | q in peers && q != p ensures Without(peers[q].inFlight, h) == peers[q].inFlight {
      assert q in Flights(peers);
    }
  }

  /** A hash that no map knows is in no list. */
  lemma NothingToReceive(peers: Peers, queued: Index, flying: Index, next: nat, h: Hash)
    requires Inv(peers, queued, flying, next) && h !in queued && h !in flying
    ensures Received(peers, peers, h)
  {
    forall q | q in peers
      ensures Without(peers[q].toDownload, h) == peers[q].toDownload
        && Without(peers[q].inFlight, h) == peers[q].inFlight {
      assert ListOk(q, Queues(peers)[q], queued, next) && ListOk(q, Flights(peers)[q], flying, next);
      NotElsewhere(q, peers[q].toDownload, queued, next, h);
      NotElsewhere(q, peers[q].inFlight, flying, next, h);
    }
  }

  /** The peer with one more entry in its queue. */
  function Enqueued(x: Peer, id: nat, h: Hash): Peer {
    x.(toDownload := x.toDownload + [Slot(id, h, 0, 0)], nToDownload := x.nToDownload + 1)
  }

  /** The peer with one more entry in flight. */
  function Launched(x: Peer, e: Slot, last: int): Peer {
    x.(inFlight := x.inFlight + [e], nInFlight := x.nInFlight + 1, lastReceive := last)
  }

  lemma EnqueueOk(peers: Peers, queued: Index, flying: Index, next: nat, p: NodeId, h: Hash)
    requires Inv(peers, queued, flying, next) && p in peers && h !in queued && h !in flying
    ensures var x := Enqueued(peers[p], next, h);
            Inv(peers[p := x], queued[h := Where(p, next)], flying, next + 1)
  {
    var x := Enqueued(peers[p], next, h);
    AppendOk(Queues(peers), queued, next, p, Slot(next, h, 0, 0));
    ListsLater(Flights(peers), flying, next);
    QueueUpdate(peers, p, x);
  }

  lemma LaunchOk(peers: Peers, queued: Index, flying: Index, next: nat, p: NodeId, e: Slot, last: int)
    requires Inv(peers, queued, flying, next) && p in peers && e.hash !in queued && e.hash !in flying
    requires e.id == next
    ensures var x := Launched(peers[p], e, last);
            Inv(peers[p := x], queued, flying[e.hash := Where(p, next)], next + 1)
  {
    var x := Launched(peers[p], e, last);
    AppendOk(Flights(peers), flying, next, p, e);
    ListsLater(Queues(peers), queued, next);
    QueueUpdate(peers, p, x);
  }

  lemma FinalizeOk(peers: Peers, queued: Index, flying: Index, next: nat, p: NodeId)
    requires Inv(peers, queued, flying, next) && p in peers
    ensures Inv(peers - {p}, WithoutAll(queued, peers[p].toDownload), WithoutAll(flying, peers[p].inFlight), next)
    ensures forall h :: h in WithoutAll(queued, peers[p].toDownload) <==> h in queued && queued[h].peer != p
    ensures forall h :: h in WithoutAll(flying, peers[p].inFlight) <==> h in flying && flying[h].peer != p
  {
    RemoveOk(Queues(peers), queued, next, p);
    RemoveOk(Flights(peers), flying, next, p);
    assert Queues(peers - {p}) == Queues(peers) - {p};
    assert Flights(peers - {p}) == Flights(peers) - {p};
  }

  lemma InitializeOk(peers: Peers, queued: Index, flying: Index, next: nat, p: NodeId)
    requires Inv(peers, queued, flying, next) && p !in peers
    ensures Inv(peers[p := Peer([], 0, [], 0, 0)], queued, flying, next)
  {
    var peers' := peers[p := Peer([], 0, [], 0, 0)];
    forall q | q in peers'
      ensures ListOk(q, Queues(peers')[q], queued, next) && ListOk(q, Flights(peers')[q], flying, next) {
      assert q in peers ==> ListOk(q, Queues(peers)[q], queued, next) && ListOk(q, Flights(peers)[q], flying, next);
    }
    forall h | h in queued ensures PointsOk(Queues(peers'), queued, h) {
      assert PointsOk(Queues(peers), queued, h);
    }
    forall h | h in flying ensures PointsOk(Flights(peers'), flying, h) {
      assert PointsOk(Flights(peers), flying, h);
    }
  }

  lemma {:induction false} WithoutTwice(l: List, h: Hash)
    ensures Without(Without(l, h), h) == Without(l, h)
  {
    if l != [] {
      WithoutTwice(l[1..], h);
    }
  }

  lemma ReceivedTwice(a: Peers, b: Peers, c: Peers, h: Hash)
    requires Received(a, b, h) && Received(b, c, h)
    ensures Received(a, c, h)
  {
    forall p | p in a ensures PeerReceived(a, c, h, p) {
      assert PeerReceived(a, b, h, p) && PeerReceived(b, c, h, p);
      WithoutTwice(a[p].toDownload, h);
      WithoutTwice(a[p].inFlight, h);
    }
  }

  lemma ReceivedCapped(a: Peers, b: Peers, h: Hash)
    requires Received(a, b, h) && Capped(a)
    ensures Capped(b)
  {
    forall p | p in b ensures |b[p].inFlight| <= MAX_IN_TRANSIT {
      assert PeerReceived(a, b, h, p);
      WithoutNoLonger(a[p].inFlight, h);
    }
  }

  lemma LaunchCapped(a: Peers, b: Peers, p: NodeId)
    requires p in a && p in b && b == a[p := b[p]] && |b[p].inFlight| == |a[p].inFlight| + 1
    ensures Capped(a) ==> (Capped(b) <==> |a[p].inFlight| < MAX_IN_TRANSIT)
  {
  }

  lemma OthersReceived(a: Peers, mid: Peers, b: Peers, p: NodeId, h: Hash)
    requires Received(a, mid, h) && p in a && p in b && b == mid[p := b[p]]
    ensures b.Keys == a.Keys && PeerReceived(a, mid, h, p)
    ensures forall q :: q in a && q != p ==> PeerReceived(a, b, h, q)
  {
    forall q | q in a && q != p ensures PeerReceived(a, b, h, q) {
      assert PeerReceived(a, mid, h, q);
    }
  }

  /** The hash at the front of a queue is nowhere else. */
  lemma FrontOnly(peers: Peers, queued: Index, flying: Index, next: nat, p: NodeId)
    requires Inv(peers, queued, flying, next) && p in peers && peers[p].toDownload != []
    ensures var h := peers[p].toDownload[0].hash;
            h in queued && Without(peers[p].toDownload, h) == peers[p].toDownload[1..]
            && Without(peers[p].inFlight, h) == peers[p].inFlight
            && forall q :: q in peers && q != p ==>
              Without(peers[q].toDownload, h) == peers[q].toDownload
                && Without(peers[q].inFlight, h) == peers[q].inFlight
  {
    var l := peers[p].toDownload;
    var h := l[0].hash;
    assert ListOk(p, Queues(peers)[p], queued, next);
    assert SlotOk(p, l[0], queued, next);
    forall i | 0 <= i < |l[1..]| ensures l[1..][i].hash != h {
      if l[i + 1].hash == h {
        ListedOnce(Queues(peers), queued, next, p, 0, p, i + 1);
      }
    }
    WithoutAbsent(l[1..], h);
    forall q | q in peers
      ensures Without(peers[q].inFlight, h) == peers[q].inFlight
        && (q != p ==> Without(peers[q].toDownload, h) == peers[q].toDownload) {
      assert ListOk(q, Queues(peers)[q], queued, next) && ListOk(q, Flights(peers)[q], flying, next);
      NotElsewhere(q, peers[q].inFlight, flying, next, h);
      if q != p {
        NotElsewhere(q, peers[q].toDownload, queued, next, h);
      }
    }
  }

  class Downloads {
    var peers: Peers
    var queued: Index
    var flying: Index
    var next: nat

    ghost predicate Linked()
      reads this
    {
      Inv(peers, queued, flying, next)
    }

    ghost predicate Valid()
      reads this
    {
      Linked() && Capped(peers)
    }

    constructor ()
      ensures Valid() && peers == map[]
    {
      peers, queued, flying, next := map[], map[], map[], 0;
    }

    /** InitializeNode: a peer that is known stays as it is. */
    method InitializeNode(p: NodeId)
      requires Valid()
      modifies this`peers
      ensures Valid() && peers == if p in old(peers) then old(peers) else old(peers)[p := Peer([], 0, [], 0, 0)]
    {
      if p !in peers {
        InitializeOk(peers, queued, flying, next, p);
        peers := peers[p := Peer([], 0, [], 0, 0)];
      }
    }

    /** FinalizeNode: the peer and everything asked from it are forgotten. */
    method FinalizeNode(p: NodeId)
      requires Valid() && p in peers
      modifies this`peers, this`queued, this`flying
      ensures Valid() && peers == old(peers) - {p}
      ensures forall h :: h in queued <==> h in old(queued) && old(queued)[h].peer != p
      ensures forall h :: h in flying <==> h in old(flying) && old(flying)[h].peer != p
    {
      FinalizeOk(peers, queued, flying, next, p);
      flying := EraseHashes(flying, peers[p].inFlight);
      queued := EraseHashes(queued, peers[p].toDownload);
      peers := peers - {p};
    }

    /** MarkBlockAsReceived: the hash leaves both maps and every list. */
    method MarkBlockAsReceived(h: Hash, from: NodeId, now: int)
      requires Linked()
      modifies this`peers, this`queued, this`flying
      ensures Linked() && Received(old(peers), peers, h) && queued == old(queued) - {h} && flying == old(flying) - {h}
      ensures TimesReceived(old(peers), peers, old(flying), h, from, now)
      ensures old(Valid()) ==> Valid()
    {
      Unqueue(h);
      ghost var mid := peers;
      Unfly(h, from, now);
      if h in old(queued) || h !in old(flying) {
        ReceivedTwice(old(peers), mid, peers, h);
      }
      if Capped(old(peers)) {
        ReceivedCapped(old(peers), peers, h);
      }
    }

    method Unfly(h: Hash, from: NodeId, now: int)
      requires Linked() && h !in queued
      modifies this`peers, this`flying
      ensures Linked() && flying == old(flying) - {h} && Received(old(peers), peers, h)
      ensures TimesReceived(old(peers), peers, old(flying), h, from, now)
    {
      if h in flying {
        Land(h, from, now);
      } else {
        NothingToReceive(peers, queued, flying, next, h);
        assert flying - {h} == flying;
      }
    }

    method Land(h: Hash, from: NodeId, now: int)
      requires Linked() && h !in queued && h in flying
      modifies this`peers, this`flying
      ensures Linked() && flying == old(flying) - {h} && Received(old(peers), peers, h)
      ensures TimesReceived(old(peers), peers, old(flying), h, from, now)
    {
      var p := flying[h].peer;
      PointedAt(peers, queued, flying, next, h);
      var last := if p == from then now else peers[p].lastReceive;
      UnflyOk(peers, queued, flying, next, h, last);
      peers, flying := peers[p := Landed(peers[p], flying[h].id, last)], flying - {h};
    }

    method Unqueue(h: Hash)
      requires Linked()
      modifies this`peers, this`queued
      ensures Linked() && queued == old(queued) - {h}
      ensures h in old(queued) || h !in flying ==> Received(old(peers), peers, h)
      ensures h !in old(queued) ==> peers == old(peers)
      ensures forall p :: p in old(peers) ==> p in peers && peers[p].lastReceive == old(peers)[p].lastReceive
    {
      if h in queued {
        UnqueueOk(peers, queued, flying, next, h);
        var p := queued[h].peer;
        peers := peers[p := Dequeued(peers[p], queued[h].id)];
        queued := queued - {h};
      } else {
        if h !in flying {
          NothingToReceive(peers, queued, flying, next, h);
        }
        assert queued - {h} == queued;
      }
    }

    /** AddBlockToQueue: refused for a hash that is asked for already, and for an unknown peer. */
    method AddBlockToQueue(p: NodeId, h: Hash) returns (ok: bool)
      requires Valid()
      modifies this`peers, this`queued, this`next
      ensures Valid() && (ok <==> h !in old(queued) && h !in flying && p in old(peers))
      ensures !ok ==> peers == old(peers) && queued == old(queued)
      ensures ok ==> h in queued && queued == old(queued)[h := queued[h]] && queued[h].peer == p
      ensures ok ==> p in peers && peers == old(peers)[p := peers[p]] && peers[p].inFlight == old(peers)[p].inFlight
      ensures ok ==> Hashes(peers[p].toDownload) == Hashes(old(peers)[p].toDownload) + [h]
    {
      if h in queued || h in flying { return false; }
      if p !in peers { return false; }
      EnqueueOk(peers, queued, flying, next, p, h);
      peers := peers[p := Enqueued(peers[p], next, h)];
      queued := queued[h := Where(p, next)];
      next := next + 1;
      return true;
    }

    /** MarkBlockAsInFlight. The limit of 128 is kept exactly if the peer has less than that without `h`. */
    method MarkBlockAsInFlight(p: NodeId, h: Hash, now: int)
      requires Linked() && p in peers
      modifies this
      ensures Linked() && h !in queued && h in flying && flying[h].peer == p
      ensures old(Valid()) ==> (Valid() <==> |Without(old(peers)[p].inFlight, h)| < MAX_IN_TRANSIT)
      ensures queued == old(queued) - {h} && flying == old(flying)[h := flying[h]]
      ensures peers.Keys == old(peers).Keys && p in peers && peers[p].toDownload == Without(old(peers)[p].toDownload, h)
      ensures var rest := Without(old(peers)[p].inFlight, h);
              && (exists e: Slot ::
                    e.hash == h && e.time == now && e.before == |rest| && peers[p].inFlight == rest + [e])
              && (p != -1 ==> peers[p].lastReceive == if rest == [] then now else old(peers)[p].lastReceive)
      ensures forall q :: q in old(peers) && q != p ==> PeerReceived(old(peers), peers, h, q)
      ensures forall q :: q in old(peers) && q != p && q != -1 ==> peers[q].lastReceive == old(peers)[q].lastReceive
    {
      MarkBlockAsReceived(h, -1, now);
      ghost var mid := peers;
      Launch(p, h, now);
      LaunchCapped(mid, peers, p);
      OthersReceived(old(peers), mid, peers, p, h);
    }

    /** The rest of MarkBlockAsInFlight, for a hash that is listed nowhere. */
    method Launch(p: NodeId, h: Hash, now: int)
      requires Linked() && p in peers && h !in queued && h !in flying
      modifies this`peers, this`flying, this`next
      ensures Linked() && h in flying && flying == old(flying)[h := Where(p, old(next))]
      ensures p in peers && peers == old(peers)[p := peers[p]] && peers[p].toDownload == old(peers)[p].toDownload
      ensures exists e: Slot :: && e.hash == h && e.time == now && e.before == |old(peers)[p].inFlight|
                                && peers[p].inFlight == old(peers)[p].inFlight + [e]
      ensures peers[p].lastReceive == if old(peers)[p].inFlight == [] then now else old(peers)[p].lastReceive
    {
      var x := peers[p];
      assert CountsOk(x);
      var e := Slot(next, h, now, x.nInFlight);
      var last := if x.nInFlight == 0 then now else x.lastReceive;
      LaunchOk(peers, queued, flying, next, p, e, last);
      peers := peers[p := Launched(x, e, last)];
      flying := flying[h := Where(p, next)];
      next := next + 1;
      assert e.hash == h && e.time == now && peers[p].inFlight == old(peers)[p].inFlight + [e];
    }

    /** The getdata loop of SendMessages: the front of the peer's queue is requested, until the queue
        is empty or 128 blocks are in flight. */
    method RequestBlocks(p: NodeId, disconnect: bool, now: int) returns (asked: seq<Hash>)
      requires Valid() && p in peers
      modifies this
      ensures Valid() && p in peers && Requested(old(peers), peers, p, asked)
      ensures disconnect ==> asked == []
      ensures !disconnect ==> peers[p].toDownload == [] || |peers[p].inFlight| == MAX_IN_TRANSIT
    {
      asked := [];
      NoneRequested(peers, p);
      assert CountsOk(peers[p]);
      while !disconnect && peers[p].nToDownload != 0 && peers[p].nInFlight < MAX_IN_TRANSIT
        invariant Valid() && p in peers && Requested(old(peers), peers, p, asked) && (disconnect ==> asked == [])
        invariant CountsOk(peers[p])
        decreases |peers[p].toDownload|
      {
        var h := peers[p].toDownload[0].hash;
        FrontOnly(peers, queued, flying, next, p);
        ghost var before := peers;
        asked := asked + [h];
        MarkBlockAsInFlight(p, h, now);
        RequestNext(old(peers), before, peers, p, asked[..|asked| - 1], h);
      }
    }
  }

  /** The first blocks of the peer's queue have gone into flight, in order; other peers are as before. */
  ghost predicate Requested(peers: Peers, peers': Peers, p: NodeId, asked: seq<Hash>)
    requires p in peers && p in peers'
  {
    && |asked| <= |peers[p].toDownload| && asked == Hashes(peers[p].toDownload[..|asked|])
    && peers'[p].toDownload == peers[p].toDownload[|asked|..]
    && Hashes(peers'[p].inFlight) == Hashes(peers[p].inFlight) + asked
    && peers'.Keys == peers.Keys
    && forall q :: q in peers && q != p ==> q in peers' && SameLists(peers[q], peers'[q])
  }

  ghost predicate SameLists(x: Peer, y: Peer) {
    x.toDownload == y.toDownload && x.inFlight == y.inFlight
  }

  lemma NoneRequested(peers: Peers, p: NodeId)
    requires p in peers
    ensures Requested(peers, peers, p, [])
  {
  }

  lemma RequestNext(first: Peers, before: Peers, after: Peers, p: NodeId, asked: seq<Hash>, h: Hash)
    requires p in first && p in before && p in after && Requested(first, before, p, asked)
    requires before[p].toDownload != [] && before[p].toDownload[0].hash == h
    requires after.Keys == before.Keys
      && after[p].toDownload == Without(before[p].toDownload, h) == before[p].toDownload[1..]
    requires exists e: Slot :: e.hash == h && after[p].inFlight == Without(before[p].inFlight, h) + [e]
    requires Without(before[p].inFlight, h) == before[p].inFlight
    requires forall q :: q in before && q != p ==>
      Without(before[q].toDownload, h) == before[q].toDownload && Without(before[q].inFlight, h) == before[q].inFlight
      && PeerReceived(before, after, h, q)
    ensures Requested(first, after, p, asked + [h])
  {
    var n, l := |asked|, first[p].toDownload;
    var e: Slot :| e.hash == h && after[p].inFlight == before[p].inFlight + [e];
    assert l[n] == before[p].toDownload[0];
    assert l[n..][1..] == l[n + 1..];
    assert Hashes(l[..n + 1]) == Hashes(l[..n]) + [h];
    assert Hashes(before[p].inFlight + [e]) == Hashes(before[p].inFlight) + [h];
    forall q | q in first && q != p ensures q in after && SameLists(first[q], after[q]) {
      assert SameLists(first[q], before[q]);
    }
  }

  lemma {:induction false} WithoutNoLonger(l: List, h: Hash)
    ensures |Without(l, h)| <= |l|
  {
    if l != [] {
      WithoutNoLonger(l[1..], h);
    }
  }

  /** A loop of FinalizeNode. */
  method EraseHashes(index: Index, l: List) returns (r: Index)
    ensures r == WithoutAll(index, l)
  {
    r := index;
    var i := 0;
    assert Hashes(l[..0]) == [];
    assert WithoutAll(index, l[..0]) == index;
    while i < |l|
      invariant i <= |l| && r == WithoutAll(index, l[..i])
    {
      EraseNext(index, l, i);
      r := r - {l[i].hash};
      i := i + 1;
    }
    assert l[..i] == l;
  }

  lemma EraseNext(index: Index, l: List, i: nat)
    requires i < |l|
    ensures WithoutAll(index, l[..i + 1]) == WithoutAll(index, l[..i]) - {l[i].hash}
  {
    assert Hashes(l[..i + 1]) == Hashes(l[..i]) + [l[i].hash];
  }
}
