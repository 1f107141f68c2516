/** Writing the address manager to a file and reading it back (IMPLEMENT_SERIALIZE of CAddrMan in
    src/addrman.h): nothing is lost but ids, orders and the time of the last try. */
module AddrFile {
  import opened Transactions
  import opened AddrTables
  import opened Ordering

  /** The serialized part of CAddrInfo. */
  datatype Record = Record(address: Address, source: NetAddr, lastSuccess: int, attempts: int)

  /** The file after its version and key. */
  datatype File = File(nNew: int, nTried: int, bucketCount: int, news: seq<Record>, trieds: seq<Record>,
                       indexes: seq<seq<int>>)

  function Saved(info: Info): Record {
    Record(info.address, info.source, info.lastSuccess, info.attempts)
  }

  /** An entry read back, at its place in vRandom. */
  function Restored(r: Record, pos: int, inTried: bool, refs: int): Info {
    Info(r.address, r.source, r.lastSuccess, 0, r.attempts, refs, inTried, pos)
  }

  function BlankInfo(): Info {
    Info(Address(Service(0, 0), {}, 0), 0, 0, 0, 0, 0, false, -1)
  }

  // ---------------------------------------------------------------- the order of the file

  /** The ids among order[..i] that are, or are not, tried. */
  function AmongTo(infos: Infos, order: seq<Id>, flag: bool, i: nat): seq<Id>
    requires i <= |order|
  {
    if i == 0 then []
    else
      var n := order[i - 1];
      AmongTo(infos, order, flag, i - 1) + if n in infos && infos[n].inTried == flag then [n] else []
  }

  function Among(infos: Infos, flag: bool): seq<Id> {
    AmongTo(infos, Ascending(infos.Keys), flag, |Ascending(infos.Keys)|)
  }

  /** New entries first, then tried ones: the ids of the old state in the order of their new ids. */
  function FileOrder(infos: Infos): seq<Id> {
    Among(infos, false) + Among(infos, true)
  }

  ghost predicate NoRepeat(q: seq<Id>) {
    forall i, j :: 0 <= i < j < |q| ==> q[i] != q[j]
  }

  lemma {:induction false} AmongHas(infos: Infos, order: seq<Id>, flag: bool, i: nat, x: Id)
    requires i <= |order|
    ensures x in AmongTo(infos, order, flag, i) <==> x in order[..i] && x in infos && infos[x].inTried == flag
  {
    if i > 0 {
      AmongHas(infos, order, flag, i - 1, x);
      assert order[..i] == order[..i - 1] + [order[i - 1]];
    }
  }

  lemma {:induction false} AmongNoRepeat(infos: Infos, order: seq<Id>, flag: bool, i: nat)
    requires i <= |order| && NoRepeat(order)
    ensures NoRepeat(AmongTo(infos, order, flag, i))
  {
    if i > 0 {
      AmongNoRepeat(infos, order, flag, i - 1);
      AmongHas(infos, order, flag, i - 1, order[i - 1]);
      assert order[i - 1] !in order[..i - 1];
    }
  }

  lemma {:induction false} AmongPrefix(infos: Infos, order: seq<Id>, flag: bool, i: nat, j: nat)
    requires i <= j <= |order|
    ensures AmongTo(infos, order, flag, i) <= AmongTo(infos, order, flag, j)
  {
    if i < j {
      AmongPrefix(infos, order, flag, i, j - 1);
    }
  }

  lemma AmongAll(infos: Infos, order: seq<Id>, flag: bool, i: nat)
    requires order == Ascending(infos.Keys) && i <= |order|
    requires i == |order| || |AmongTo(infos, order, flag, i)| == |Among(infos, flag)|
    ensures AmongTo(infos, order, flag, i) == Among(infos, flag)
  {
    AmongPrefix(infos, order, flag, i, |order|);
  }

  lemma AmongLists(infos: Infos, flag: bool)
    ensures NoRepeat(Among(infos, flag))
    ensures forall x :: x in Among(infos, flag) <==> x in infos && infos[x].inTried == flag
  {
    var order := Ascending(infos.Keys);
    AscendingLists(infos.Keys);
    AmongNoRepeat(infos, order, flag, |order|);
    forall x ensures x in Among(infos, flag) <==> x in infos && infos[x].inTried == flag {
      AmongHas(infos, order, flag, |order|, x);
      assert order[..|order|] == order;
    }
  }

  lemma {:induction false} ListSize(q: seq<Id>, s: set<Id>)
    requires NoRepeat(q) && forall x :: x in q <==> x in s
    ensures |q| == |s|
  {
    if q != [] {
      var last := |q| - 1;
      assert q == q[..last] + [q[last]];
      forall x ensures x in q[..last] <==> x in s - {q[last]} {
        assert x in q <==> x in q[..last] || x == q[last];
      }
      ListSize(q[..last], s - {q[last]});
      assert q[last] in s;
    } else if s != {} {
      var x := Pick(s);
      assert false;
    }
  }

  lemma AmongSizes(infos: Infos)
    ensures |Among(infos, false)| == |NewIds(infos)| && |Among(infos, true)| == |TriedIds(infos)|
  {
    AmongLists(infos, false);
    AmongLists(infos, true);
    ListSize(Among(infos, false), NewIds(infos));
    ListSize(Among(infos, true), TriedIds(infos));
  }

  /** Every entry has exactly one place in the file. */
  lemma FileOrderLists(infos: Infos)
    ensures NoRepeat(FileOrder(infos)) && forall x :: x in FileOrder(infos) <==> x in infos
    ensures forall i :: 0 <= i < |FileOrder(infos)| ==>
      FileOrder(infos)[i] in infos && (infos[FileOrder(infos)[i]].inTried <==> i >= |Among(infos, false)|)
  {
    var a, b, q := Among(infos, false), Among(infos, true), FileOrder(infos);
    AmongLists(infos, false);
    AmongLists(infos, true);
    forall i | 0 <= i < |q| ensures q[i] in infos && (infos[q[i]].inTried <==> i >= |a|) {
      assert if i < |a| then q[i] == a[i] && a[i] in a else q[i] == b[i - |a|] && b[i - |a|] in b;
    }
    forall x ensures x in q <==> x in infos {
      assert x in q <==> x in a || x in b;
    }
  }

  /** Where an id stands in a list. */
  function IndexIn(q: seq<Id>, n: Id): (i: nat)
    ensures i <= |q| && (n in q ==> i < |q| && q[i] == n)
  {
    if q == [] then 0 else if q[0] == n then 0 else 1 + IndexIn(q[1..], n)
  }

  lemma IndexUnique(q: seq<Id>, i: nat)
    requires NoRepeat(q) && i < |q|
    ensures IndexIn(q, q[i]) == i
  {
    assert q[i] in q;
  }

  // ---------------------------------------------------------------- writing

  function Records(infos: Infos, q: seq<Id>): (r: seq<Record>)
    ensures |r| == |q|
  {
    if q == [] then []
    else
      var n := q[|q| - 1];
      Records(infos, q[..|q| - 1]) + [Saved(if n in infos then infos[n] else BlankInfo())]
  }

  lemma {:induction false} RecordAt(infos: Infos, q: seq<Id>, i: nat)
    requires i < |q| && q[i] in infos
    ensures Records(infos, q)[i] == Saved(infos[q[i]])
  {
    if i < |q| - 1 {
      RecordAt(infos, q[..|q| - 1], i);
    }
  }

  lemma RecordsNext(infos: Infos, q: seq<Id>, n: Id)
    requires n in infos
    ensures Records(infos, q + [n]) == Records(infos, q) + [Saved(infos[n])]
  {
    assert (q + [n])[..|q|] == q;
  }

  /** The bucket as positions in the list of new entries. */
  function IndexesOf(q: seq<Id>, bucket: set<Id>): seq<int> {
    var order := Ascending(bucket);
    seq(|order|, j requires 0 <= j < |order| => IndexIn(q, order[j]))
  }

  /** The file that a state is written to. */
  ghost function FileOf(s: Tables): File {
    var news, trieds := Among(s.infos, false), Among(s.infos, true);
    File(s.nNew, s.nTried, NEW_BUCKET_COUNT, Records(s.infos, news), Records(s.infos, trieds),
         seq(|s.buckets|, b requires 0 <= b < |s.buckets| => IndexesOf(news, s.buckets[b])))
  }

  /** Positions of the new entries met so far, as the first loop collects them; tried entries met on
      the way get a position too. */
  ghost predicate Numbered(q: seq<Id>, unk: map<Id, int>) {
    forall j :: 0 <= j < |q| ==> q[j] in unk && unk[q[j]] == j
  }

  /** The next id of the walk is an entry not met before. */
  lemma NextInOrder(infos: Infos, order: seq<Id>, flag: bool, i: nat)
    requires order == Ascending(infos.Keys) && i < |order|
    ensures order[i] in infos && order[i] !in AmongTo(infos, order, flag, i)
  {
    AscendingLists(infos.Keys);
    assert order[i] in order;
    AmongHas(infos, order, flag, i, order[i]);
  }

  lemma AmongStep(infos: Infos, order: seq<Id>, flag: bool, i: nat)
    requires i < |order| && order[i] in infos
    ensures var seen := AmongTo(infos, order, flag, i);
            AmongTo(infos, order, flag, i + 1) == if infos[order[i]].inTried == flag then seen + [order[i]] else seen
  {
  }

  lemma NumberNext(q: seq<Id>, unk: map<Id, int>, n: Id)
    requires Numbered(q, unk) && n !in q
    ensures Numbered(q, unk[n := |q|]) && Numbered(q + [n], unk[n := |q|])
  {
    assert forall j :: 0 <= j < |q| ==> q[j] in q;
  }

  /** What the first loop of the writer has when it has walked over order[..i]. */
  ghost predicate Walked(s: Tables, i: nat, news: seq<Record>, unk: map<Id, int>) {
    && i <= |Ascending(s.infos.Keys)|
    && var seen := AmongTo(s.infos, Ascending(s.infos.Keys), false, i);
       news == Records(s.infos, seen) && Numbered(seen, unk)
  }

  /** One entry of the first loop of the writer. */
  method WriteOne(s: Tables, i: nat, n: Id, news: seq<Record>, unk: map<Id, int>)
    returns (news': seq<Record>, unk': map<Id, int>)
    requires forall n :: n in s.infos ==> (s.infos[n].refCount != 0 <==> !s.infos[n].inTried)
    requires Walked(s, i, news, unk) && i < |Ascending(s.infos.Keys)| && n == Ascending(s.infos.Keys)[i]
    ensures Walked(s, i + 1, news', unk')
  {
    ghost var seen := AmongTo(s.infos, Ascending(s.infos.Keys), false, i);
    NextInOrder(s.infos, Ascending(s.infos.Keys), false, i);
    AmongStep(s.infos, Ascending(s.infos.Keys), false, i);
    NumberNext(seen, unk, n);
    RecordsNext(s.infos, seen, n);
    news', unk' := news, unk[n := |news|];
    if s.infos[n].refCount != 0 {
      news' := news + [Saved(s.infos[n])];
    }
  }

  /** The first loop of the writer. */
  method WriteNew(s: Tables) returns (news: seq<Record>, unk: map<Id, int>)
    requires forall n :: n in s.infos ==> (s.infos[n].refCount != 0 <==> !s.infos[n].inTried)
    requires s.nNew == |Among(s.infos, false)|
    ensures news == Records(s.infos, Among(s.infos, false)) && Numbered(Among(s.infos, false), unk)
  {
    var order := Ascending(s.infos.Keys);
    news, unk := [], map[];
    var i := 0;
    while i < |order| && |news| != s.nNew
      invariant Walked(s, i, news, unk)
    {
      news, unk := WriteOne(s, i, order[i], news, unk);
      i := i + 1;
    }
    AmongAll(s.infos, order, false, i);
  }

  /** The second loop of the writer. */
  method WriteTried(s: Tables) returns (trieds: seq<Record>)
    requires s.nTried == |Among(s.infos, true)|
    ensures trieds == Records(s.infos, Among(s.infos, true))
  {
    var order := Ascending(s.infos.Keys);
    trieds := [];
    var i := 0;
    ghost var seen := [];
    while i < |order| && |trieds| != s.nTried
      invariant i <= |order| && seen == AmongTo(s.infos, order, true, i) && trieds == Records(s.infos, seen)
    {
      var n := order[i];
      NextInOrder(s.infos, order, true, i);
      if s.infos[n].inTried {
        RecordsNext(s.infos, seen, n);
        trieds := trieds + [Saved(s.infos[n])];
        seen := seen + [n];
      }
      i := i + 1;
    }
    AmongAll(s.infos, order, true, i);
  }

  /** One bucket of the last loop of the writer. */
  method WriteBucket(q: seq<Id>, unk: map<Id, int>, bucket: set<Id>) returns (r: seq<int>)
    requires NoRepeat(q) && Numbered(q, unk) && forall n :: n in bucket ==> n in q
    ensures r == IndexesOf(q, bucket)
  {
    var order := Ascending(bucket);
    r := [];
    var j := 0;
    while j < |order|
      invariant j <= |order| && |r| == j && forall i :: 0 <= i < j ==> r[i] == IndexIn(q, order[i])
    {
      NumberOf(q, unk, bucket, j);
      var index := if order[j] in unk then unk[order[j]] else 0;
      r := r + [index];
      j := j + 1;
    }
  }

  lemma NumberOf(q: seq<Id>, unk: map<Id, int>, bucket: set<Id>, j: nat)
    requires NoRepeat(q) && Numbered(q, unk) && j < |Ascending(bucket)| && forall n :: n in bucket ==> n in q
    ensures var n := Ascending(bucket)[j]; n in unk && unk[n] == IndexIn(q, n)
  {
    AscendingLists(bucket);
    assert Ascending(bucket)[j] in Ascending(bucket);
    IndexUnique(q, IndexIn(q, Ascending(bucket)[j]));
  }

  /** The writer. */
  method Write(ghost k: Hashing, s: Tables) returns (f: File)
    requires Inv(k, s, NONE)
    ensures f == FileOf(s)
  {
    WriterReady(k, s);
    var news, unk := WriteNew(s);
    var trieds := WriteTried(s);
    var indexes := WriteBuckets(s, unk);
    f := File(s.nNew, s.nTried, NEW_BUCKET_COUNT, news, trieds, indexes);
    assert indexes == FileOf(s).indexes;
  }

  method WriteBuckets(s: Tables, unk: map<Id, int>) returns (indexes: seq<seq<int>>)
    requires Numbered(Among(s.infos, false), unk)
    requires forall b, n :: 0 <= b < |s.buckets| && n in s.buckets[b] ==> n in Among(s.infos, false)
    ensures |indexes| == |s.buckets|
    ensures forall b :: 0 <= b < |s.buckets| ==> indexes[b] == IndexesOf(Among(s.infos, false), s.buckets[b])
  {
    AmongLists(s.infos, false);
    indexes := [];
    var b := 0;
    while b < |s.buckets|
      invariant b <= |s.buckets| && |indexes| == b
      invariant forall c :: 0 <= c < b ==> indexes[c] == IndexesOf(Among(s.infos, false), s.buckets[c])
    {
      var r := WriteBucket(Among(s.infos, false), unk, s.buckets[b]);
      indexes := indexes + [r];
      b := b + 1;
    }
  }

  lemma WriterReady(k: Hashing, s: Tables)
    requires Inv(k, s, NONE)
    ensures forall n :: n in s.infos ==> (s.infos[n].refCount != 0 <==> !s.infos[n].inTried)
    ensures s.nNew == |Among(s.infos, false)| && s.nTried == |Among(s.infos, true)|
    ensures forall b, n :: 0 <= b < |s.buckets| && n in s.buckets[b] ==> n in Among(s.infos, false)
  {
    AmongSizes(s.infos);
    AmongLists(s.infos, false);
    forall n | n in s.infos ensures s.infos[n].refCount != 0 <==> !s.infos[n].inTried {
      assert CountOk(s.infos[n], RefCount(s.buckets, n) + if n == NONE then 1 else 0);
    }
    assert forall b :: 0 <= b < |s.buckets| ==> NewBucketOk(s.infos, s.buckets[b]);
  }
}
