/** Base58 and Base58Check (src/base58.cpp): the fixed-size buffer of the encoder is always large
    enough, and decoding gives back the bytes without their leading zeros. */
module Base58 {
  import opened Transactions
  import opened Compact

  type Digit = d: int | 0 <= d < 58

  const DIGITS: string := "123456789"
  const UPPER: string := "ABCDEFGH" + "JKLMN" + "PQRSTU" + "VWXYZ"
  const LOWER: string := "abcdef" + "ghijk" + "mnopqrs" + "tuvwxyz"

  /** pszBase58. */
  const ALPHABET: string := DIGITS + UPPER + LOWER

  function Symbol(d: Digit): char {
    ALPHABET[d]
  }

  // ---------------------------------------------------------------- numbers to base 58

  function Pow58(n: nat): (r: nat)
    ensures r >= 1
  {
    if n == 0 then 1 else 58 * Pow58(n - 1)
  }

  function Pow256(n: nat): (r: nat)
    ensures r >= 1
  {
    if n == 0 then 1 else 256 * Pow256(n - 1)
  }

  /** The value of big-endian digits. */
  function Value(s: seq<Digit>): nat {
    if s == [] then 0 else s[0] * Pow58(|s| - 1) + Value(s[1..])
  }

  lemma Distribute(a: int, b: int, p: int)
    ensures (a + b) * p == a * p + b * p
  {
  }

  lemma {:induction false} Pow58Adds(m: nat, n: nat)
    ensures Pow58(m + n) == Pow58(m) * Pow58(n)
  {
    if m > 0 {
      Pow58Adds(m - 1, n);
      Scale(58, Pow58(m - 1), Pow58(n));
    }
  }

  lemma Scale(a: int, b: int, c: int)
    ensures (a * b) * c == a * (b * c)
  {
  }

  lemma {:induction false} Pow58Grows(m: nat, n: nat)
    requires m <= n
    ensures Pow58(m) <= Pow58(n)
  {
    if m < n {
      Pow58Grows(m, n - 1);
    }
  }

  lemma Pow256Adds8(m: nat)
    requires m >= 8
    ensures Pow256(m) == 18446744073709551616 * Pow256(m - 8)
  {
    assert Pow256(m) == 256 * Pow256(m - 1) && Pow256(m - 1) == 256 * Pow256(m - 2);
    assert Pow256(m - 2) == 256 * Pow256(m - 3) && Pow256(m - 3) == 256 * Pow256(m - 4);
    assert Pow256(m - 4) == 256 * Pow256(m - 5) && Pow256(m - 5) == 256 * Pow256(m - 6);
    assert Pow256(m - 6) == 256 * Pow256(m - 7) && Pow256(m - 7) == 256 * Pow256(m - 8);
  }

  lemma Pow58Of11()
    ensures Pow58(1) == 58 && Pow58(2) == 3364 && Pow58(3) == 195112 && Pow58(5) == 656356768 && Pow58(6) == 38068692544
    ensures Pow58(7) == 2207984167552 && Pow58(9) == 7427658739644928 && Pow58(10) == 430804206899405824
    ensures Pow58(11) == 24986644000165537792
  {
    assert Pow58(1) == 58;
    assert Pow58(2) == 3364;
    assert Pow58(3) == 195112;
    assert Pow58(4) == 11316496;
    assert Pow58(5) == 656356768;
    assert Pow58(6) == 38068692544;
    assert Pow58(7) == 2207984167552;
    assert Pow58(8) == 128063081718016;
    assert Pow58(9) == 7427658739644928;
    assert Pow58(10) == 430804206899405824;
    assert Pow58(11) == 24986644000165537792;
  }

  lemma Pow256Small()
    ensures Pow256(0) == 1 && Pow256(1) == 256 && Pow256(2) == 65536 && Pow256(3) == 16777216 && Pow256(4) == 4294967296
    ensures Pow256(5) == 1099511627776 && Pow256(6) == 281474976710656 && Pow256(7) == 72057594037927936
  {
    assert Pow256(1) == 256;
    assert Pow256(2) == 65536;
    assert Pow256(3) == 16777216;
    assert Pow256(4) == 4294967296;
    assert Pow256(5) == 1099511627776;
    assert Pow256(6) == 281474976710656;
    assert Pow256(7) == 72057594037927936;
  }

  /** The size of the encoder's buffer. */
  function BufferSize(bytes: nat): nat {
    bytes * 138 / 100 + 1
  }

  /** Numbers of `m` bytes fit into the buffer for `m` bytes. */
  lemma {:induction false} BufferLargeEnough(m: nat)
    ensures Pow256(m) <= Pow58(BufferSize(m))
  {
    if m < 8 {
      BufferSmall(m);
    } else {
      BufferLargeEnough(m - 8);
      BufferStep(m, Pow256(m - 8));
    }
  }

  lemma BufferSmall(m: nat)
    requires m < 8
    ensures Pow256(m) <= Pow58(BufferSize(m))
  {
    Pow256Small();
    Pow58Of11();
    if m == 0 { assert BufferSize(m) == 1; }
    else if m == 1 { assert BufferSize(m) == 2; }
    else if m == 2 { assert BufferSize(m) == 3; }
    else if m == 3 { assert BufferSize(m) == 5; }
    else if m == 4 { assert BufferSize(m) == 6; }
    else if m == 5 { assert BufferSize(m) == 7; }
    else if m == 6 { assert BufferSize(m) == 9; }
    else { assert BufferSize(m) == 10; }
  }

  /** Eight bytes more need at most eleven digits more, and the buffer grows by at least eleven. */
  lemma BufferStep(m: nat, p: nat)
    requires m >= 8 && p == Pow256(m - 8) <= Pow58(BufferSize(m - 8))
    ensures Pow256(m) <= Pow58(BufferSize(m))
  {
    var n := BufferSize(m - 8);
    Pow256Adds8(m);
    Pow58Of11();
    Pow58Adds(11, n);
    assert BufferSize(m) >= 11 + n;
    Pow58Grows(11 + n, BufferSize(m));
  }

  // ---------------------------------------------------------------- the encoder's arithmetic

  lemma CarryStep(carry: nat, d: nat, p: nat, v: int, w: int)
    requires v + carry * p == w
    ensures var c := carry + 256 * d; (c % 58) * p + v + (c / 58) * (58 * p) == (d * p) * 256 + w
  {
    var c := carry + 256 * d;
    var q, r := c / 58, c % 58;
    assert c == 58 * q + r;
    Scale(q, 58, p);
    Distribute(r, 58 * q, p);
    Distribute(carry, 256 * d, p);
    Scale(256, d, p);
    assert (q * 58) * p == (58 * q) * p;
  }

  /** One round of the outer loop: the number in the buffer is multiplied by 256 and a byte is added,
      in place, from the last digit on. */
  method MulAdd(a: array<Digit>, b: Byte) returns (carry: nat)
    modifies a
    ensures Value(a[..]) + carry * Pow58(a.Length) == Value(old(a[..])) * 256 + b
  {
    carry := b;
    var i := a.Length;
    ghost var was := a[..];
    assert a[i..] == [] && was[i..] == [];
    while i > 0
      invariant 0 <= i <= a.Length && a[..i] == was[..i]
      invariant Value(a[i..]) + carry * Pow58(a.Length - i) == Value(was[i..]) * 256 + b
    {
      i := i - 1;
      ghost var before := carry;
      var d: int := a[i];
      var c := carry + 256 * d;
      a[i] := c % 58;
      carry := c / 58;
      Round(a[i..], was[i..], before, b);
      assert a[..i] == was[..i] by { assert was[..i + 1][..i] == was[..i]; }
    }
    assert a[0..] == a[..] && was[0..] == was;
  }

  /** One round of the inner loop, on the digits from the current one on. */
  lemma Round(now: seq<Digit>, was: seq<Digit>, carry: nat, b: Byte)
    requires |now| == |was| > 0 && now[0] == (carry + was[0] as int * 256) % 58
    requires Value(now[1..]) + carry * Pow58(|was| - 1) == Value(was[1..]) * 256 + b
    ensures Value(now) + ((carry + was[0] as int * 256) / 58) * Pow58(|was|) == Value(was) * 256 + b
  {
    var p, d: int := Pow58(|was| - 1), was[0];
    CarryStep(carry, d, p, Value(now[1..]), Value(was[1..]) * 256 + b);
    assert Value(was) == d * p + Value(was[1..]);
    assert Value(now) == ((carry + 256 * d) % 58) * p + Value(now[1..]);
  }

  // ---------------------------------------------------------------- digits without leading zeros

  /** The digits of a number, none for zero. */
  function Digits(v: nat): seq<Digit> {
    if v == 0 then [] else Digits(v / 58) + [v % 58]
  }

  lemma {:induction false} ValueSnoc(s: seq<Digit>, d: Digit)
    ensures Value(s + [d]) == Value(s) * 58 + d
  {
    var t := s + [d];
    if s == [] {
      assert t[1..] == [];
      assert Pow58(0) == 1;
    } else {
      ValueSnoc(s[1..], d);
      assert t[1..] == s[1..] + [d];
      Scale(s[0], Pow58(|s| - 1), 58);
    }
  }

  lemma {:induction false} DigitsValue(v: nat)
    ensures Value(Digits(v)) == v && (v > 0 ==> Digits(v) != [] && Digits(v)[0] != 0)
  {
    if v > 0 {
      DigitsValue(v / 58);
      ValueSnoc(Digits(v / 58), v % 58);
    }
  }

  /** Digits without leading zeros are the digits of their value. */
  lemma {:induction false} DigitsUnique(s: seq<Digit>)
    requires s == [] || s[0] != 0
    ensures Digits(Value(s)) == s && (s != [] ==> Value(s) > 0)
  {
    if s != [] {
      var last := |s| - 1;
      var front := s[..last];
      assert s == front + [s[last]];
      ValueSnoc(front, s[last]);
      DigitsUnique(front);
      assert (Value(front) * 58 + s[last]) / 58 == Value(front);
    }
  }

  lemma ValueSkipsZero(s: seq<Digit>)
    requires s != [] && s[0] == 0
    ensures Value(s[1..]) == Value(s)
  {
  }

  // ---------------------------------------------------------------- bytes without leading zeros

  function LeadingZeros(v: seq<Byte>): (n: nat)
    ensures n <= |v| && (forall i :: 0 <= i < n ==> v[i] == 0) && (n < |v| ==> v[n] != 0)
  {
    if v == [] || v[0] != 0 then 0 else 1 + LeadingZeros(v[1..])
  }

  function Stripped(v: seq<Byte>): seq<Byte> {
    v[LeadingZeros(v)..]
  }

  lemma {:induction false} BigEndianBelow(v: seq<Byte>)
    ensures BigEndian(v) < Pow256(|v|)
  {
    if v != [] {
      BigEndianBelow(v[..|v| - 1]);
    }
  }

  lemma BigEndianGrows(v: seq<Byte>, n: nat)
    requires n <= |v|
    ensures BigEndian(v[..n]) < Pow256(|v|)
  {
    BigEndianBelow(v[..n]);
    Pow256Grows(n, |v|);
  }

  lemma {:induction false} Pow256Grows(m: nat, n: nat)
    requires m <= n
    ensures Pow256(m) <= Pow256(n)
  {
    if m < n {
      Pow256Grows(m, n - 1);
    }
  }

  // ---------------------------------------------------------------- EncodeBase58

  function Chars(s: seq<Digit>): string {
    if s == [] then [] else Chars(s[..|s| - 1]) + [Symbol(s[|s| - 1])]
  }

  function Ones(n: nat): string {
    if n == 0 then [] else ['1'] + Ones(n - 1)
  }

  /** The text of a byte string: a '1' for every leading zero byte, then the number to base 58. */
  function Encoded(v: seq<Byte>): string {
    Ones(LeadingZeros(v)) + Chars(Digits(BigEndian(Stripped(v))))
  }

  /** The loop over the bytes. The carry left over is always zero. */
  method Convert(v: seq<Byte>) returns (a: array<Digit>)
    ensures fresh(a) && Value(a[..]) == BigEndian(v)
  {
    a := new Digit[BufferSize(|v|)](_ => 0);
    AllZero(a[..]);
    BufferLargeEnough(|v|);
    var i := 0;
    assert v[..0] == [];
    while i < |v|
      invariant i <= |v| && Value(a[..]) == BigEndian(v[..i]) && a.Length == BufferSize(|v|)
    {
      var carry := MulAdd(a, v[i]);
      assert v[..i + 1] == v[..i] + [v[i]];
      BigEndianNext(v[..i], v[i]);
      BigEndianGrows(v, i + 1);
      NoCarry(Value(a[..]), carry, Pow58(a.Length), BigEndian(v[..i + 1]));
      assert carry == 0;
      i := i + 1;
    }
    assert v[..i] == v;
  }

  lemma {:induction false} AllZero(s: seq<Digit>)
    requires forall i :: 0 <= i < |s| ==> s[i] == 0
    ensures Value(s) == 0
  {
    if s != [] {
      AllZero(s[1..]);
    }
  }

  lemma NoCarry(v: nat, carry: nat, p: nat, w: nat)
    requires v + carry * p == w && w < p
    ensures carry == 0
  {
  }

  /** EncodeBase58. */
  method EncodeBase58(v: seq<Byte>) returns (str: string)
    ensures str == Encoded(v)
  {
    var zeroes := 0;
    while zeroes < |v| && v[zeroes] == 0
      invariant zeroes <= |v| && forall i :: 0 <= i < zeroes ==> v[i] == 0
    {
      zeroes := zeroes + 1;
    }
    ZerosCounted(v, zeroes);
    var a := Convert(v[zeroes..]);
    str := Translate(a[..], zeroes);
  }

  /** Skipping the leading zeros of the buffer and translating the rest. */
  method Translate(b58: seq<Digit>, zeroes: nat) returns (str: string)
    ensures str == Ones(zeroes) + Chars(Digits(Value(b58)))
  {
    var it := 0;
    assert b58[0..] == b58;
    while it < |b58| && b58[it] == 0
      invariant it <= |b58| && Value(b58[it..]) == Value(b58)
    {
      ValueSkipsZero(b58[it..]);
      assert b58[it..][1..] == b58[it + 1..];
      it := it + 1;
    }
    DigitsUnique(b58[it..]);
    var text := CharsOf(b58[it..]);
    str := Ones(zeroes) + text;
  }

  method CharsOf(s: seq<Digit>) returns (text: string)
    ensures text == Chars(s)
  {
    text := "";
    var j := 0;
    assert s[..0] == [];
    while j < |s|
      invariant j <= |s| && text == Chars(s[..j])
    {
      assert s[..j + 1] == s[..j] + [s[j]];
      CharsNext(s[..j], s[j]);
      text := text + [Symbol(s[j])];
      j := j + 1;
    }
    assert s[..j] == s;
  }

  lemma CharsNext(s: seq<Digit>, d: Digit)
    ensures Chars(s + [d]) == Chars(s) + [Symbol(d)]
  {
    assert (s + [d])[..|s|] == s;
  }

  lemma {:induction false} ZerosCounted(v: seq<Byte>, n: nat)
    requires n <= |v| && (forall i :: 0 <= i < n ==> v[i] == 0) && (n < |v| ==> v[n] != 0)
    ensures LeadingZeros(v) == n
  {
    if n > 0 {
      ZerosCounted(v[1..], n - 1);
    }
  }

  // ---------------------------------------------------------------- the alphabet

  predicate IsSpace(c: char) {
    c == ' ' || '\t' <= c <= '\r'
  }

  /** strchr in the alphabet. */
  function Find(c: char, from: nat): (r: Option<Digit>)
    requires from <= 58
    ensures r.Some? ==> from <= r.value && Symbol(r.value) == c
    ensures r.None? ==> forall i: Digit :: from <= i ==> Symbol(i) != c
    decreases 58 - from
  {
    if from == 58 then None else if Symbol(from) == c then Some(from) else Find(c, from + 1)
  }

  predicate IsSymbol(c: char) {
    Find(c, 0).Some?
  }

  /** The code of a symbol: the alphabet is made of five runs of letters and the digits. */
  function Code(d: Digit): int {
    if d < 9 then d + 49 else if d < 17 then d + 56 else if d < 22 then d + 57
    else if d < 33 then d + 58 else if d < 44 then d + 64 else d + 65
  }

  lemma UpperAt(d: Digit)
    requires 9 <= d < 33
    ensures |UPPER| == 24 && UPPER[d - 9] as int == Code(d)
  {
  }

  lemma LowerAt(d: Digit)
    requires 33 <= d
    ensures |LOWER| == 25 && LOWER[d - 33] as int == Code(d)
  {
  }

  lemma AlphabetAt(d: Digit)
    ensures Symbol(d) as int == Code(d)
  {
    if 9 <= d < 33 {
      UpperAt(d);
    } else if 33 <= d {
      LowerAt(d);
    }
  }

  /** A symbol is found at its own place only, is no space, and is '1' only for zero. */
  lemma SymbolFound(d: Digit)
    ensures Find(Symbol(d), 0) == Some(d) && IsSymbol(Symbol(d)) && !IsSpace(Symbol(d))
    ensures Symbol(d) == '1' <==> d == 0
  {
    AlphabetAt(d);
    var r := Find(Symbol(d), 0);
    if r.Some? {
      AlphabetAt(r.value);
    }
  }

  // ---------------------------------------------------------------- what a text stands for

  function TrimSpaces(s: string): string {
    if s != [] && IsSpace(s[0]) then TrimSpaces(s[1..]) else s
  }

  function TrimOnes(s: string): (t: string)
    ensures t == [] || t[0] != '1'
  {
    if s != [] && s[0] == '1' then TrimOnes(s[1..]) else s
  }

  /** How many symbols a text starts with. */
  function Symbols(s: string): (n: nat)
    ensures n <= |s|
  {
    if s != [] && IsSymbol(s[0]) then 1 + Symbols(s[1..]) else 0
  }

  function DigitOf(c: char): Digit {
    match Find(c, 0)
    case Some(d) => d
    case None => 0
  }

  function NumberOf(s: string): nat {
    if s == [] then 0 else NumberOf(s[..|s| - 1]) * 58 + DigitOf(s[|s| - 1])
  }

  /** The bytes of a number, none for zero. */
  function MinBytes(v: nat): seq<Byte> {
    if v == 0 then [] else MinBytes(v / 256) + [v % 256]
  }

  /** What the decoder returns: spaces around the text and leading '1's are skipped. */
  function Decoded(s: string): Option<seq<Byte>> {
    var t := TrimOnes(TrimSpaces(s));
    var n := Symbols(t);
    if TrimSpaces(t[n..]) == [] then Some(MinBytes(NumberOf(t[..n]))) else None
  }

  lemma {:induction false} BodyOf(v: nat)
    requires v > 0
    ensures MinBytes(v) != [] && MinBytes(v)[0] != 0
    ensures Body(v) == if MinBytes(v)[0] >= 128 then [0] + MinBytes(v) else MinBytes(v)
  {
    if v >= 256 {
      BodyOf(v / 256);
    } else {
      assert v / 256 == 0 && v % 256 == v && MinBytes(v) == [v];
      if v >= 128 {
        assert Body(v) == Body(0) + [v];
      }
    }
  }

  /** The end of the decoder: getvch (kept big-endian here), the sign byte, and the '1's counted
      after they have been skipped. */
  method NumberBytes(bn: nat, rest: string) returns (v: seq<Byte>)
    requires rest == [] || rest[0] != '1'
    ensures v == MinBytes(bn)
  {
    var tmp := Mpi(bn);
    if bn > 0 {
      BodyOf(bn);
    }
    if |tmp| >= 2 && tmp[0] == 0 && tmp[1] >= 0x80 {
      tmp := tmp[1..];
    }
    var zeros := CountOnes(rest);
    v := Zeros(zeros) + tmp;
  }

  method CountOnes(s: string) returns (n: nat)
    ensures n <= |s| && (forall i :: 0 <= i < n ==> s[i] == '1') && (n < |s| ==> s[n] != '1')
  {
    n := 0;
    while n < |s| && s[n] == '1'
      invariant n <= |s| && forall i :: 0 <= i < n ==> s[i] == '1'
    {
      n := n + 1;
    }
  }

  method SkipSpaces(s: string, from: nat) returns (p: nat)
    requires from <= |s|
    ensures from <= p <= |s| && s[p..] == TrimSpaces(s[from..])
  {
    p := from;
    while p < |s| && IsSpace(s[p])
      invariant from <= p <= |s| && TrimSpaces(s[p..]) == TrimSpaces(s[from..])
    {
      assert s[p..][1..] == s[p + 1..];
      p := p + 1;
    }
  }

  method SkipOnes(s: string, from: nat) returns (p: nat)
    requires from <= |s|
    ensures from <= p <= |s| && s[p..] == TrimOnes(s[from..])
  {
    p := from;
    while p < |s| && s[p] == '1'
      invariant from <= p <= |s| && TrimOnes(s[p..]) == TrimOnes(s[from..])
    {
      assert s[p..][1..] == s[p + 1..];
      p := p + 1;
    }
  }

  /** The loop over the symbols. */
  method ReadNumber(t: string) returns (ok: bool, bn: nat)
    ensures ok == (TrimSpaces(t[Symbols(t)..]) == []) && (ok ==> bn == NumberOf(t[..Symbols(t)]))
  {
    bn := 0;
    var p := 0;
    assert t[0..] == t && t[..0] == [];
    while p < |t|
      invariant p <= |t| && Symbols(t) == p + Symbols(t[p..]) && bn == NumberOf(t[..p])
    {
      match Find(t[p], 0) {
        case None =>
          var end := SkipSpaces(t, p);
          ok := end == |t|;
          return;
        case Some(d) =>
          assert t[p..][1..] == t[p + 1..];
          assert t[..p + 1] == t[..p] + [t[p]];
          NumberNext(t[..p], t[p]);
          bn := bn * 58 + d;
          p := p + 1;
      }
    }
    assert t[p..] == [];
    ok := true;
  }

  lemma NumberNext(s: string, c: char)
    ensures NumberOf(s + [c]) == NumberOf(s) * 58 + DigitOf(c)
  {
    assert (s + [c])[..|s|] == s;
  }

  /** The live part of DecodeBase58. */
  method DecodeBase58(s: string) returns (r: Option<seq<Byte>>)
    ensures r == Decoded(s)
  {
    assert s[0..] == s;
    var p := SkipSpaces(s, 0);
    p := SkipOnes(s, p);
    var ok, bn := ReadNumber(s[p..]);
    if !ok { return None; }
    var v := NumberBytes(bn, s[p..]);
    return Some(v);
  }

  // ---------------------------------------------------------------- round trips

  lemma {:induction false} CharsAt(s: seq<Digit>, i: nat)
    requires i < |s|
    ensures |Chars(s)| == |s| && Chars(s)[i] == Symbol(s[i])
  {
    if |s| > 1 {
      CharsAt(s[..|s| - 1], if i < |s| - 1 then i else 0);
    }
  }

  lemma {:induction false} CharsAreSymbols(t: string)
    requires forall i :: 0 <= i < |t| ==> IsSymbol(t[i])
    ensures Symbols(t) == |t|
  {
    if t != [] {
      CharsAreSymbols(t[1..]);
    }
  }

  lemma {:induction false} CharsNumber(s: seq<Digit>)
    ensures NumberOf(Chars(s)) == Value(s)
  {
    if s != [] {
      var front, d := s[..|s| - 1], s[|s| - 1];
      CharsNumber(front);
      assert s == front + [d];
      ValueSnoc(front, d);
      SymbolFound(d);
      NumberNext(Chars(front), Symbol(d));
    }
  }

  lemma {:induction false} OnesTrimmed(n: nat, t: string)
    requires t == [] || t[0] != '1'
    ensures TrimOnes(Ones(n) + t) == t
  {
    if n == 0 {
      assert Ones(0) + t == t;
    } else {
      OnesTrimmed(n - 1, t);
      assert (Ones(n) + t)[1..] == Ones(n - 1) + t;
    }
  }

  lemma {:induction false} MinBytesUnique(v: seq<Byte>)
    requires v == [] || v[0] != 0
    ensures MinBytes(BigEndian(v)) == v && (v != [] ==> BigEndian(v) > 0)
  {
    if v != [] {
      var last := |v| - 1;
      MinBytesUnique(v[..last]);
      var y, b: int := BigEndian(v[..last]), v[last];
      assert (y * 256 + b) / 256 == y && (y * 256 + b) % 256 == b;
      assert v == v[..last] + [v[last]];
    }
  }

  /** The characters of digits are symbols and no spaces. */
  lemma CharsFine(d: seq<Digit>, i: nat)
    requires i < |Chars(d)|
    ensures |Chars(d)| == |d| && IsSymbol(Chars(d)[i]) && !IsSpace(Chars(d)[i]) && (Chars(d)[i] == '1' <==> d[i] == 0)
  {
    CharsLength(d);
    CharsAt(d, i);
    SymbolFound(d[i]);
  }

  /** Neither spaces nor further '1's come before the digits. */
  lemma TextTrimmed(d: seq<Digit>, zeros: nat)
    requires d == [] || d[0] != 0
    ensures TrimOnes(TrimSpaces(Ones(zeros) + Chars(d))) == Chars(d)
  {
    var t := Chars(d);
    if t != [] {
      CharsFine(d, 0);
    }
    FirstNoSpace(zeros, t);
    OnesTrimmed(zeros, t);
  }

  lemma FirstNoSpace(zeros: nat, t: string)
    requires t == [] || !IsSpace(t[0])
    ensures TrimSpaces(Ones(zeros) + t) == Ones(zeros) + t
  {
    var s := Ones(zeros) + t;
    if zeros > 0 {
      assert s[0] == '1';
    } else {
      assert s == t;
    }
  }

  /** The text is all symbols, and stands for the number. */
  lemma TextNumber(n: nat)
    ensures var t := Chars(Digits(n)); Symbols(t) == |t| && NumberOf(t) == n
  {
    var d := Digits(n);
    forall i | 0 <= i < |Chars(d)| ensures IsSymbol(Chars(d)[i]) {
      CharsFine(d, i);
    }
    CharsAreSymbols(Chars(d));
    CharsNumber(d);
    DigitsValue(n);
  }

  /** The text of a number reads back as that number. */
  lemma {:induction false} TextReadsBack(n: nat, zeros: nat)
    ensures Decoded(Ones(zeros) + Chars(Digits(n))) == Some(MinBytes(n))
  {
    var t := Chars(Digits(n));
    DigitsValue(n);
    TextTrimmed(Digits(n), zeros);
    TextNumber(n);
    assert t[..|t|] == t && t[|t|..] == [];
  }

  lemma {:induction false} CharsLength(s: seq<Digit>)
    ensures |Chars(s)| == |s|
  {
    if s != [] {
      CharsLength(s[..|s| - 1]);
    }
  }

  /** Decoding gives back the bytes without their leading zeros. */
  lemma DecodeEncode(v: seq<Byte>)
    ensures Decoded(Encoded(v)) == Some(Stripped(v))
  {
    TextReadsBack(BigEndian(Stripped(v)), LeadingZeros(v));
    MinBytesUnique(Stripped(v));
  }

  /** So the round trip is exact for byte strings that do not start with a zero byte, and only those. */
  lemma DecodeEncodeExact(v: seq<Byte>)
    ensures Decoded(Encoded(v)) == Some(v) <==> v == [] || v[0] != 0
  {
    DecodeEncode(v);
    if v != [] && v[0] == 0 {
      assert |Stripped(v)| < |v|;
    }
  }

  /** A single zero byte is lost. */
  lemma ZeroByteLost()
    ensures Encoded([0]) == "1" && Decoded("1") == Some([])
  {
    var v: seq<Byte> := [0];
    assert LeadingZeros(v) == 1 && Stripped(v) == [];
    assert Ones(1) == ['1'] + Ones(0);
    DecodeEncode(v);
  }

  // ---------------------------------------------------------------- Base58Check

  const CHECKSUM_SIZE: nat := 4

  /** The first four bytes of the hash of a byte string. */
  type Checksum = seq<Byte> -> seq<Byte>

  ghost predicate ChecksumOk(sum: Checksum) {
    forall v :: |sum(v)| == CHECKSUM_SIZE
  }

  /** EncodeBase58Check. */
  method EncodeBase58Check(sum: Checksum, v: seq<Byte>) returns (str: string)
    ensures str == Encoded(v + sum(v))
  {
    str := EncodeBase58(v + sum(v));
  }

  /** The bytes before the checksum, if it is theirs. */
  function Checked(sum: Checksum, w: seq<Byte>): Option<seq<Byte>> {
    if |w| < CHECKSUM_SIZE then None
    else
      var v := w[..|w| - CHECKSUM_SIZE];
      if sum(v) == w[|w| - CHECKSUM_SIZE..] then Some(v) else None
  }

  function DecodedCheck(sum: Checksum, s: string): Option<seq<Byte>> {
    match Decoded(s)
    case None => None
    case Some(w) => Checked(sum, w)
  }

  /** DecodeBase58Check. */
  method DecodeBase58Check(sum: Checksum, s: string) returns (r: Option<seq<Byte>>)
    ensures r == DecodedCheck(sum, s)
  {
    var d := DecodeBase58(s);
    match d {
      case None => return None;
      case Some(w) => r := TakeChecksum(sum, w);
    }
  }

  method TakeChecksum(sum: Checksum, w: seq<Byte>) returns (r: Option<seq<Byte>>)
    ensures r == Checked(sum, w)
  {
    if |w| < CHECKSUM_SIZE { return None; }
    var v := w[..|w| - CHECKSUM_SIZE];
    if sum(v) != w[|w| - CHECKSUM_SIZE..] { return None; }
    return Some(v);
  }

  /** Base58Check is an exact round trip if and only if the bytes with their checksum do not start
      with a zero byte. */
  lemma CheckRoundTrip(sum: Checksum, v: seq<Byte>)
    requires ChecksumOk(sum)
    ensures DecodedCheck(sum, Encoded(v + sum(v))) == Some(v) <==> (v + sum(v))[0] != 0
  {
    var w := v + sum(v);
    DecodeEncode(w);
    if w[0] != 0 {
      assert Stripped(w) == w;
      assert w[..|w| - CHECKSUM_SIZE] == v && w[|w| - CHECKSUM_SIZE..] == sum(v);
    } else {
      assert |Stripped(w)| < |w|;
    }
  }

  // ---------------------------------------------------------------- CBase58Data

  class CBase58Data {
    var version: seq<Byte>
    var data: seq<Byte>

    constructor ()
      ensures version == [] && data == []
    {
      version, data := [], [];
    }

    method SetString(sum: Checksum, s: string, versionBytes: nat) returns (ok: bool)
      modifies this
      ensures ok <==> DecodedCheck(sum, s).Some? && |DecodedCheck(sum, s).value| >= versionBytes
      ensures ok ==> |version| == versionBytes && version + data == DecodedCheck(sum, s).value
      ensures !ok ==> version == [] && data == []
    {
      var r := DecodeBase58Check(sum, s);
      if r.None? || |r.value| < versionBytes {
        version, data := [], [];
        return false;
      }
      SplitJoins(r.value, versionBytes);
      version, data := r.value[..versionBytes], r.value[versionBytes..];
      return true;
    }

    method ToString(sum: Checksum) returns (str: string)
      ensures str == Encoded(version + data + sum(version + data))
    {
      str := EncodeBase58Check(sum, version + data);
    }
  }

  lemma SplitJoins(v: seq<Byte>, n: nat)
    requires n <= |v|
    ensures v[..n] + v[n..] == v
  {
  }

  /** The version prefixes of the main network (one byte, or four for extended keys). */
  function MainPrefixes(): set<seq<Byte>> {
    {[55], [63], [56], [64], [0x04, 0x88, 0xB2, 0x1E], [0x04, 0x88, 0xAD, 0xE4]}
  }

  /** Data under a main-network prefix survives its text. */
  method TextRoundTrip(sum: Checksum, prefix: seq<Byte>, payload: seq<Byte>)
    returns (ok: bool, version: seq<Byte>, data: seq<Byte>)
    requires ChecksumOk(sum) && prefix in MainPrefixes()
    ensures ok && version == prefix && data == payload
  {
    var a := new CBase58Data();
    a.version, a.data := prefix, payload;
    var str := a.ToString(sum);
    CheckRoundTrip(sum, prefix + payload);
    assert prefix != [] && prefix[0] != 0;
    var b := new CBase58Data();
    ok := b.SetString(sum, str, |prefix|);
    version, data := b.version, b.data;
    assert (prefix + payload)[..|prefix|] == prefix;
    assert (version + data)[..|prefix|] == version && (version + data)[|prefix|..] == data;
  }
}
