/** The rule that a coinbase script starts with the height of its block (AcceptBlock in src/main.cpp,
    CScript's operator<< in src/script.h), and what it is for: no block that connects repeats a
    transaction id of the chain below it. */
module Heights {
  import opened Transactions
  import opened TxIndex
  import opened Blocks
  import opened Supply
  import opened Compact

  // ---------------------------------------------------------------- the script

  const OP_1: int := 81

  /** `CScript() << nHeight`: an opcode for 1 to 16, otherwise the bytes of the number, least significant
      first, after their count. */
  function PushHeight(n: nat): seq<int> {
    if 1 <= n <= 16 then [n + OP_1 - 1] else [|Mpi(n)|] + Reverse(Mpi(n))
  }

  /** The coinbase script starts with the height; nHeight is a 32-bit integer. */
  predicate TellsHeight(script: seq<int>, n: nat) {
    n < 0x8000_0000 && PushHeight(n) <= script
  }

  lemma ReverseInjective(p: seq<Byte>, q: seq<Byte>)
    requires Reverse(p) == Reverse(q)
    ensures p == q
  {
    forall i | 0 <= i < |p| ensures p[i] == q[i] {
      assert Reverse(p)[|p| - 1 - i] == p[i] && Reverse(q)[|p| - 1 - i] == q[i];
    }
  }

  lemma FourBytes(n: nat)
    requires n < 0x8000_0000
    ensures |Mpi(n)| <= 4
  {
    SizeIsLength(n);
    assert n / 256 / 256 / 256 < 128;
    assert Size(n / 256 / 256 / 256) == 1;
    assert Size(n / 256 / 256) <= 2;
    assert Size(n / 256) <= 3;
  }

  /** A script tells at most one height. */
  lemma OneHeight(script: seq<int>, m: nat, n: nat)
    requires TellsHeight(script, m) && TellsHeight(script, n)
    ensures m == n
  {
    FourBytes(m);
    FourBytes(n);
    assert PushHeight(m)[0] == script[0] == PushHeight(n)[0];
    if !(1 <= m <= 16) {
      assert |Mpi(m)| == |Mpi(n)|;
      assert Reverse(Mpi(m)) == script[1..1 + |Mpi(m)|] == Reverse(Mpi(n));
      ReverseInjective(Mpi(m), Mpi(n));
      MpiRoundTrip(m);
      MpiRoundTrip(n);
    }
  }

  lemma {:induction false} ReverseValue(p: seq<Byte>)
    ensures LittleEndian(Reverse(p)) == BigEndian(p)
  {
    if p != [] {
      var last := |p| - 1;
      ReverseValue(p[..last]);
      assert Reverse(p)[0] == p[last];
      assert Reverse(p)[1..] == Reverse(p[..last]);
    }
  }

  lemma ReverseTwice(b: seq<Byte>)
    ensures |Reverse(b)| == |b| && Reverse(Reverse(b)) == b
  {
  }

  lemma ReverseEnds(b: seq<Byte>)
    ensures var p := Reverse(b);
            |p| == |b| && (b != [] ==> p[0] == b[|b| - 1]) && (|b| >= 2 ==> p[1] == b[|b| - 2])
  {
  }

  /** The bytes are the shortest ones that leave the sign bit of the last free. */
  predicate Shortest(b: seq<Byte>) {
    b == [] || (b[|b| - 1] < 128 && (b[|b| - 1] > 0 || (|b| >= 2 && b[|b| - 2] >= 128)))
  }

  lemma ShortestIs(b: seq<Byte>, p: seq<Byte>)
    requires |p| == |b| && (b != [] ==> p[0] == b[|b| - 1]) && (|b| >= 2 ==> p[1] == b[|b| - 2])
    ensures Shortest(b) <==> Minimal(p) && (p != [] ==> p[0] < 128)
  {
  }

  lemma NumberBytes(b: seq<Byte>, p: seq<Byte>, n: nat)
    requires p == Reverse(b)
    ensures Mpi(n) == p <==> LittleEndian(b) == n && Shortest(b)
  {
    ReverseTwice(b);
    ReverseValue(p);
    ReverseEnds(b);
    ShortestIs(b, p);
    PositiveBytes(p, n);
  }

  lemma PositiveBytes(p: seq<Byte>, n: nat)
    ensures Mpi(n) == p <==> BigEndian(p) == n && Minimal(p) && (p != [] ==> p[0] < 128)
  {
    MpiBytesRoundTrip(p);
    MpiRoundTrip(n);
  }

  /** Above sixteen a script tells the height in its bytes after their number, least significant first, if they are
      the shortest ones for it. */
  lemma TellsExactly(b: seq<Byte>, rest: seq<int>, n: nat)
    requires n > 16
    ensures TellsHeight([|b|] + b + rest, n) <==> n < 0x8000_0000 && LittleEndian(b) == n && Shortest(b)
  {
    var r := Reverse(Mpi(n));
    NumberBytes(b, Reverse(b), n);
    ReverseTwice(b);
    ReverseTwice(Mpi(n));
    CountedPrefix(r, b, rest);
  }

  /** A list after its length is the start of another such one only if the two are the same. */
  lemma CountedPrefix(r: seq<int>, b: seq<int>, rest: seq<int>)
    ensures [|r|] + r <= [|b|] + b + rest <==> r == b
  {
    var p, q := [|r|] + r, [|b|] + b + rest;
    if p <= q {
      assert p[0] == q[0];
      assert r == p[1..] == q[1..1 + |r|] == b;
    }
  }

  lemma SmallHeight(script: seq<int>, n: nat)
    requires 1 <= n <= 16 && script != [] && script[0] == 80 + n
    ensures TellsHeight(script, n)
  {
    assert PushHeight(n) <= script;
  }

  predicate HeightRule(b: Block, n: nat) {
    b.vtx != [] && TellsHeight(b.vtx[0].script, n)
  }

  // ---------------------------------------------------------------- fresh ids

  /** No two different transactions in the block files have the same id. */
  ghost predicate NoCollision(disk: map<DiskPos, Tx>) {
    forall p, q :: p in disk && q in disk && disk[p].id == disk[q].id ==> disk[p] == disk[q]
  }

  predicate IsSpent(v: TxMap, o: OutPoint) {
    Indexed(v, o) && v[o.hash].spent[o.n] != NullPos
  }

  predicate SpendsAll(v: TxMap, tx: Tx) {
    !tx.IsCoinBase() ==> forall i :: 0 <= i < |tx.vin| ==> IsSpent(v, tx.vin[i])
  }

  predicate TellsUpTo(tx: Tx, n: nat) {
    tx.IsCoinBase() ==> exists k: nat :: k <= n && TellsHeight(tx.script, k)
  }

  /** The record leads to its transaction, all of whose inputs are spent, or which tells a height up to `n`. */
  predicate SealedAt(v: TxMap, disk: map<DiskPos, Tx>, n: nat, h: Hash) {
    h in v ==>
      && v[h].pos in disk && disk[v[h].pos].id == h
      && SpendsAll(v, disk[v[h].pos]) && TellsUpTo(disk[v[h].pos], n)
  }

  ghost predicate Sealed(v: TxMap, disk: map<DiskPos, Tx>, n: nat) {
    forall h {:trigger SealedAt(v, disk, n, h)} :: SealedAt(v, disk, n, h)
  }

  lemma SpentStays(v: TxMap, tx: Tx, pos: DiskPos, o: OutPoint)
    requires tx.id !in v && pos != NullPos && IsSpent(v, o)
    ensures IsSpent(ConnectTx(v, tx, pos), o)
  {
  }

  lemma SpendsItsInputs(v: TxMap, tx: Tx, pos: DiskPos)
    requires CleanStep(v, tx) && pos != NullPos
    ensures SpendsAll(ConnectTx(v, tx, pos), tx)
  {
    if !tx.IsCoinBase() {
      forall i | 0 <= i < |tx.vin| ensures IsSpent(ConnectTx(v, tx, pos), tx.vin[i]) {
        assert IsUnspent(v, tx.vin[i]);
        assert tx.vin[i] in OutPoints(tx.vin);
      }
    }
  }

  lemma StaysSealed(v: TxMap, disk: map<DiskPos, Tx>, n: nat, tx: Tx, pos: DiskPos, h: Hash)
    requires SealedAt(v, disk, n, h) && tx.id !in v && pos != NullPos && h != tx.id
    ensures SealedAt(ConnectTx(v, tx, pos), disk, n, h)
  {
    if h in v {
      var prior := disk[v[h].pos];
      if !prior.IsCoinBase() {
        forall i | 0 <= i < |prior.vin| ensures IsSpent(ConnectTx(v, tx, pos), prior.vin[i]) {
          SpentStays(v, tx, pos, prior.vin[i]);
        }
      }
    }
  }

  lemma SealedStep(v: TxMap, disk: map<DiskPos, Tx>, n: nat, tx: Tx, pos: DiskPos)
    requires Sealed(v, disk, n) && CleanStep(v, tx) && TellsUpTo(tx, n)
    requires pos != NullPos && pos in disk && disk[pos] == tx
    ensures Sealed(ConnectTx(v, tx, pos), disk, n)
  {
    var w := ConnectTx(v, tx, pos);
    forall h ensures SealedAt(w, disk, n, h) {
      if h == tx.id {
        SpendsItsInputs(v, tx, pos);
      } else {
        assert SealedAt(v, disk, n, h);
        StaysSealed(v, disk, n, tx, pos, h);
      }
    }
  }

  lemma SealedHigher(v: TxMap, disk: map<DiskPos, Tx>, m: nat, n: nat)
    requires Sealed(v, disk, m) && m <= n
    ensures Sealed(v, disk, n)
  {
    forall h ensures SealedAt(v, disk, n, h) {
      assert SealedAt(v, disk, m, h);
    }
  }

  /** A transaction whose inputs are unspent is not in the index: there they would be spent. */
  lemma SpenderIsFresh(v: TxMap, disk: map<DiskPos, Tx>, n: nat, tx: Tx, pos: DiskPos)
    requires Sealed(v, disk, n) && NoCollision(disk) && pos in disk && disk[pos] == tx
    requires !tx.IsCoinBase() && tx.vin != [] && SpendsUnspent(v, tx)
    ensures tx.id !in v
  {
    assert SealedAt(v, disk, n, tx.id) && IsUnspent(v, tx.vin[0]);
  }

  /** Nor is a coinbase that tells a greater height than all those in the index. */
  lemma CoinbaseIsFresh(v: TxMap, disk: map<DiskPos, Tx>, n: nat, tx: Tx, pos: DiskPos, m: nat)
    requires Sealed(v, disk, n) && NoCollision(disk) && pos in disk && disk[pos] == tx
    requires tx.IsCoinBase() && TellsHeight(tx.script, m) && m > n
    ensures tx.id !in v
  {
    assert SealedAt(v, disk, n, tx.id);
    if tx.id in v {
      assert disk[v[tx.id].pos] == disk[pos];
      var k: nat :| k <= n && TellsHeight(tx.script, k);
      OneHeight(tx.script, k, m);
    }
  }

  lemma {:induction false} CleanSealed(v: TxMap, disk: map<DiskPos, Tx>, b: Block, at: Location, n: nat, k: nat)
    requires CheckBlock(b) && k <= |b.vtx| && CleanTo(v, b.vtx, at, k)
    requires Sealed(v, disk, n) && Stored(disk, b.vtx, at) && HeightRule(b, n + 1)
    ensures Sealed(ConnectAll(v, b.vtx, at, k), disk, n + 1)
  {
    if k == 0 {
      SealedHigher(v, disk, n, n + 1);
    } else {
      CleanSealed(v, disk, b, at, n, k - 1);
      SealedStep(ConnectAll(v, b.vtx, at, k - 1), disk, n + 1, b.vtx[k - 1], TxPos(at, b.vtx, k - 1));
    }
  }

  lemma BlockSealed(v: TxMap, disk: map<DiskPos, Tx>, b: Block, at: Location, n: nat)
    requires CheckBlock(b) && Clean(v, b, at) && Sealed(v, disk, n) && Stored(disk, b.vtx, at) && HeightRule(b, n + 1)
    ensures Sealed(Connected(v, b, at), disk, n + 1)
  {
    CleanSealed(v, disk, b, at, n, |b.vtx|);
  }

  lemma {:induction false} ConnectsClean(v: TxMap, src: Source, b: Block, at: Location, checks: Checks, n: nat, k: nat)
    requires CheckBlock(b) && k <= |b.vtx| && TxsOk(v, src, b.vtx, at, checks, k)
    requires Sealed(v, src.disk, n) && NoCollision(src.disk) && Stored(src.disk, b.vtx, at) && HeightRule(b, n + 1)
    ensures CleanTo(v, b.vtx, at, k)
  {
    if k > 0 {
      var w, tx, pos := ConnectAll(v, b.vtx, at, k - 1), b.vtx[k - 1], TxPos(at, b.vtx, k - 1);
      TxsOkLast(v, src, b.vtx, at, checks, k);
      ConnectsClean(v, src, b, at, checks, n, k - 1);
      if k == 1 {
        CoinbaseIsFresh(w, src.disk, n, tx, pos, n + 1);
      } else {
        CleanSealed(v, src.disk, b, at, n, k - 1);
        SpenderIsFresh(w, src.disk, n + 1, tx, pos);
      }
    }
  }

  /** A block that follows the height rule and connects repeats no transaction id of the chain. */
  lemma HeightRuleKeepsIdsFresh(v: TxMap, src: Source, b: Block, cx: Context, checks: Checks, n: nat)
    requires ConnectOk(v, src, b, cx, checks) && Stored(src.disk, b.vtx, cx.at) && HeightRule(b, n + 1)
    requires Sealed(v, src.disk, n) && NoCollision(src.disk)
    ensures Ids(b.vtx) !! v.Keys && Sealed(Connected(v, b, cx.at), src.disk, n + 1)
  {
    ConnectsClean(v, src, b, cx.at, checks, n, |b.vtx|);
    BlockSealed(v, src.disk, b, cx.at, n);
    CleanUndo(v, b, cx.at);
    DisconnectUndoesConnect(v, src, b, cx, checks);
  }

  lemma NothingSealed(disk: map<DiskPos, Tx>)
    ensures Sealed(map[], disk, 0)
  {
  }

  // ---------------------------------------------------------------- without the rule

  lemma TellsNoHeight(script: seq<int>, n: nat)
    requires script != [] && script[0] >= 200
    ensures !TellsHeight(script, n)
  {
    if n < 0x8000_0000 {
      FourBytes(n);
      assert PushHeight(n)[0] < 200;
    }
  }

  /** ConnectBlock by itself takes a block that repeats an indexed coinbase, one that tells no height; then
      disconnecting loses the older record. The index is one of the files, which also hold the block. */
  lemma ReusedIdLosesRecord() returns (v: TxMap, src: Source, b: Block, cx: Context, checks: Checks)
    ensures ConnectOk(v, src, b, cx, checks) && Consistent(v, src.disk) && Stored(src.disk, b.vtx, cx.at)
    ensures NoCollision(src.disk) && forall n: nat :: !HeightRule(b, n)
    ensures 7 in v && 7 !in Disconnected(Connected(v, b, cx.at), b)
  {
    var tx := Tx(7, 0, [OutPoint(0, 0xffff_ffff)], [200, 0], [TxOut(COIN, [1])], 100);
    var prior := Pos(1, 0, 81);
    b, cx := Block(1, 0, [tx]), Context(Location(1, 500), 1, 0, 0);
    v, src := map[7 := FreshEntry(prior, 1)], Source(map[prior := tx, TxPos(cx.at, b.vtx, 0) := tx], map[]);
    checks := AllFine();
    CoinbaseConnects(v, src, b, tx, cx);
    forall n: nat ensures !HeightRule(b, n) {
      TellsNoHeight(tx.script, n);
    }
    DisconnectErases(Connected(v, b, cx.at), b.vtx, 1);
    assert b.vtx[0].id in Ids(b.vtx) && b.vtx[..1] == b.vtx;
  }
}
