/** Transactions, their positions on disk and the records of the transaction index
    (src/main.h, src/chain.h). Hashes and serialized sizes are functions of a
    transaction's bytes; here each transaction carries them as `id` and `size`. */
module Transactions {

  type Hash = int

  datatype Option<+T> = None | Some(value: T)

  const COIN: int := 100000000

  /** No amount larger than this (in satoshi) is valid. */
  const MAX_SINGLE_TX: int := 21000000 * COIN

  predicate MoneyRange(v: int) {
    0 <= v <= MAX_SINGLE_TX
  }

  datatype OutPoint = OutPoint(hash: Hash, n: nat) {
    predicate IsNull() {
      hash == 0 && n == 0xffff_ffff
    }
  }

  datatype TxOut = TxOut(value: int, script: seq<int>) {
    predicate IsEmpty() {
      value == 0 && script == []
    }
  }

  /** `script` is the scriptSig of the first input. */
  datatype Tx = Tx(id: Hash, time: int, vin: seq<OutPoint>, script: seq<int>, vout: seq<TxOut>, size: nat) {
    predicate IsCoinBase() {
      |vin| == 1 && vin[0].IsNull() && |vout| >= 1
    }

    predicate IsCoinStake() {
      |vin| > 0 && !vin[0].IsNull() && |vout| >= 2 && vout[0].IsEmpty()
    }
  }

  /** CDiskTxPos; `NullPos` is what SetNull leaves. */
  datatype DiskPos = NullPos | Pos(file: nat, block: nat, tx: nat)

  /** The marker FetchInputs reads as "refer to the memory pool". */
  const MEMPOOL_POS := Pos(1, 1, 1)

  /** CTxIndex: where a transaction lies and, for each output, who spends it. */
  datatype Entry = Entry(pos: DiskPos, spent: seq<DiskPos>)

  type TxMap = map<Hash, Entry>

  /** CTxIndex(pos, nOutputs): every output unspent. */
  function FreshEntry(pos: DiskPos, outputs: nat): Entry {
    Entry(pos, seq(outputs, _ => NullPos))
  }

  function OutPoints(vin: seq<OutPoint>): set<OutPoint> {
    set o | o in vin
  }

  predicate NoDuplicates<T(==)>(s: seq<T>) {
    forall i, j :: 0 <= i < j < |s| ==> s[i] != s[j]
  }

  /** Total of the first `k` outputs. */
  function OutTo(vout: seq<TxOut>, k: nat): int
    requires k <= |vout|
  {
    if k == 0 then 0 else OutTo(vout, k - 1) + vout[k - 1].value
  }

  function ValueOut(vout: seq<TxOut>): int {
    OutTo(vout, |vout|)
  }

  /** The range test of GetValueOut and CheckTransaction: each of the first `k` outputs and
      every running total lies in the money range. */
  predicate InRangeTo(vout: seq<TxOut>, k: nat)
    requires k <= |vout|
  {
    k == 0 || (InRangeTo(vout, k - 1) && MoneyRange(vout[k - 1].value) && MoneyRange(OutTo(vout, k)))
  }

  predicate OutputsInRange(vout: seq<TxOut>) {
    InRangeTo(vout, |vout|)
  }

  lemma {:induction false} InRangePrefix(vout: seq<TxOut>, k: nat, n: nat)
    requires k <= n <= |vout| && InRangeTo(vout, n)
    ensures InRangeTo(vout, k)
  {
    if k < n {
      InRangePrefix(vout, k, n - 1);
    }
  }

  /** The running tests amount to a test of each output and one of the total. */
  lemma {:induction false} RangeMeans(vout: seq<TxOut>, k: nat)
    requires k <= |vout|
    ensures InRangeTo(vout, k) <==>
      (forall i :: 0 <= i < k ==> 0 <= vout[i].value <= MAX_SINGLE_TX) && 0 <= OutTo(vout, k) <= MAX_SINGLE_TX
    ensures (forall i :: 0 <= i < k ==> 0 <= vout[i].value) ==> OutTo(vout, k) >= 0
  {
    if k > 0 {
      RangeMeans(vout, k - 1);
    }
  }

  lemma OneOutput(vout: seq<TxOut>)
    requires |vout| == 1 && MoneyRange(vout[0].value)
    ensures OutputsInRange(vout) && ValueOut(vout) == vout[0].value
  {
    assert OutTo(vout, 0) == 0 && InRangeTo(vout, 0);
    assert OutTo(vout, 1) == vout[0].value && InRangeTo(vout, 1);
  }

  /** CTransaction::GetValueOut: None stands for the exception it throws. */
  method GetValueOut(tx: Tx) returns (r: Option<int>)
    ensures r == if OutputsInRange(tx.vout) then Some(ValueOut(tx.vout)) else None
  {
    var total := 0;
    for i := 0 to |tx.vout|
      invariant total == OutTo(tx.vout, i)
      invariant InRangeTo(tx.vout, i)
    {
      total := total + tx.vout[i].value;
      if !MoneyRange(tx.vout[i].value) || !MoneyRange(total) {
        if OutputsInRange(tx.vout) {
          InRangePrefix(tx.vout, i + 1, |tx.vout|);
        }
        return None;
      }
    }
    return Some(total);
  }

  // ---------------------------------------------------------------- numbers and collections

  function Min(a: int, b: int): int {
    if a < b then a else b
  }

  function Reverse<T>(s: seq<T>): (r: seq<T>)
    ensures |r| == |s| && forall i :: 0 <= i < |s| ==> r[i] == s[|s| - 1 - i]
  {
    if s == [] then [] else Reverse(s[1..]) + [s[0]]
  }

  lemma Pick<T>(s: set<T>) returns (x: T)
    requires s != {}
    ensures x in s
  {
    x :| x in s;
  }

  lemma TwiceIn<T>(q: seq<T>, i: nat, j: nat)
    requires i < j < |q| && q[i] == q[j]
    ensures multiset(q)[q[i]] >= 2
  {
    assert q == q[..j] + [q[j]] + q[j + 1..];
    assert q[..j][i] in multiset(q[..j]);
  }
}
