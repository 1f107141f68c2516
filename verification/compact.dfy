/** The byte format of big numbers and the compact form of targets (src/bignum.h over OpenSSL's MPI
    format: big-endian magnitude, the sign in the top bit of the first byte). */
module Compact {

  type Byte = b: int | 0 <= b < 256

  // ---------------------------------------------------------------- the MPI format

  /** The shortest big-endian bytes of a number that leave the top bit free. */
  function Body(x: nat): (p: seq<Byte>)
    ensures |p| >= 1 && p[0] < 128
  {
    if x < 128 then [x] else Body(x / 256) + [x % 256]
  }

  /** BN_bn2mpi without the length. */
  function Mpi(x: int): (p: seq<Byte>)
    ensures p == [] <==> x == 0
  {
    if x == 0 then [] else if x > 0 then Body(x) else var p := Body(-x); p[0 := p[0] + 128]
  }

  function BigEndian(p: seq<Byte>): nat {
    if p == [] then 0 else BigEndian(p[..|p| - 1]) * 256 + p[|p| - 1]
  }

  /** BN_mpi2bn without the length. */
  function MpiValue(p: seq<Byte>): int {
    if p == [] then 0
    else if p[0] < 128 then BigEndian(p)
    else 0 - BigEndian(p[0 := p[0] - 128])
  }

  lemma BigEndianNext(p: seq<Byte>, b: Byte)
    ensures BigEndian(p + [b]) == BigEndian(p) * 256 + b
  {
    assert (p + [b])[..|p|] == p;
  }

  lemma {:induction false} BodyValue(x: nat)
    ensures BigEndian(Body(x)) == x
  {
    if x >= 128 {
      BodyValue(x / 256);
      BigEndianNext(Body(x / 256), x % 256);
    } else {
      assert Body(x)[..0] == [];
    }
  }

  /** Numbers survive the MPI format. */
  lemma MpiRoundTrip(x: int)
    ensures MpiValue(Mpi(x)) == x
  {
    if x > 0 {
      BodyValue(x);
    } else if x < 0 {
      BodyValue(-x);
      var p := Body(-x);
      assert p[0 := p[0] + 128][0 := p[0]] == p;
    }
  }

  /** No byte could be left out: the first seven bits or the bit after them are in use. */
  predicate Minimal(p: seq<Byte>) {
    p == [] || p[0] % 128 > 0 || (|p| >= 2 && p[1] >= 128)
  }

  lemma {:induction false} BodyMinimal(x: nat)
    requires x > 0
    ensures Minimal(Body(x))
  {
    if x >= 128 {
      if x / 256 == 0 {
        assert Body(0) == [0];
      } else {
        BodyMinimal(x / 256);
      }
    }
  }

  lemma BodyNext(y: nat, b: Byte)
    requires y > 0
    ensures Body(y * 256 + b) == Body(y) + [b]
  {
    assert (y * 256 + b) / 256 == y && (y * 256 + b) % 256 == b;
  }

  lemma ZeroThen(p: seq<Byte>)
    requires |p| == 2 && p[0] == 0 && p[1] >= 128
    ensures BigEndian(p) == p[1] && Body(p[1]) == p
  {
    assert p[..1] == [0] && p[..1][..0] == [];
    assert BigEndian(p[..1]) == 0;
    assert Body(p[1]) == Body(0) + [p[1]];
  }

  lemma {:induction false} MinimalBody(p: seq<Byte>)
    requires p != [] && p[0] < 128 && Minimal(p)
    ensures BigEndian(p) > 0 && Body(BigEndian(p)) == p
  {
    var last := |p| - 1;
    assert p == p[..last] + [p[last]];
    if last == 0 {
      assert p[..0] == [];
    } else if last == 1 && p[0] == 0 {
      ZeroThen(p);
    } else {
      MinimalBody(p[..last]);
      BodyNext(BigEndian(p[..last]), p[last]);
    }
  }

  /** The bytes of a number are recovered exactly if they are minimal. */
  lemma MpiBytesRoundTrip(p: seq<Byte>)
    ensures Mpi(MpiValue(p)) == p <==> Minimal(p)
  {
    if p != [] {
      var q := if p[0] < 128 then p else p[0 := p[0] - 128];
      assert Minimal(q) <==> Minimal(p);
      if Minimal(p) {
        MinimalBody(q);
        assert q[0 := p[0]] == p;
      } else if Mpi(MpiValue(p)) == p {
        BodyMinimal(BigEndian(q));
        assert false;
      }
    }
  }

  // ---------------------------------------------------------------- fixed-width numbers

  function LittleEndian(b: seq<Byte>): nat {
    if b == [] then 0 else b[0] + 256 * LittleEndian(b[1..])
  }

  /** Digit `i` of a number to base 256, as its bytes hold it. */
  function DigitAt(p: seq<Byte>, i: nat): Byte {
    if i < |p| then p[|p| - 1 - i] else 0
  }

  lemma {:induction false} DigitsOf(b: seq<Byte>, i: nat)
    requires i < |b|
    ensures DigitAt(Body(LittleEndian(b)), i) == b[i]
  {
    var x, y := LittleEndian(b), LittleEndian(b[1..]);
    assert x / 256 == y && x % 256 == b[0];
    if i > 0 {
      DigitsOf(b[1..], i - 1);
    }
    if x < 128 {
      assert y == 0 && Body(y) == [0];
    }
  }

  /** setuint256: the bytes from the most significant one down, without leading zeros but with one
      where the top bit is set. */
  method SetUint(b: seq<Byte>) returns (p: seq<Byte>)
    ensures p == Mpi(LittleEndian(b))
  {
    p := [];
    var i, leading := |b|, true;
    assert b[i..] == [];
    while i > 0
      invariant 0 <= i <= |b| && p == Mpi(LittleEndian(b[i..])) && (leading <==> p == [])
    {
      i := i - 1;
      var c := b[i];
      assert b[i..][1..] == b[i + 1..];
      MpiNext(LittleEndian(b[i + 1..]), c);
      if leading {
        if c == 0 { continue; }
        if c >= 128 { p := p + [0]; }
        leading := false;
      }
      p := p + [c];
    }
    assert b[0..] == b;
  }

  lemma MpiNext(y: nat, c: Byte)
    ensures Mpi(c + 256 * y) == if y > 0 then Mpi(y) + [c] else if c == 0 then [] else if c < 128 then [c]
      else [0] + [c]
  {
    if y > 0 {
      BodyNext(y, c);
    } else if c >= 128 {
      assert c / 256 == 0 && c % 256 == c && Body(0) == [0];
      assert Body(c) == Body(0) + [c];
    }
  }

  lemma SignCleared(x: int)
    requires x != 0
    ensures var p := Mpi(x); p[0 := p[0] % 128] == Body(if x < 0 then -x else x)
  {
    var p := Body(if x < 0 then -x else x);
    assert p[0] % 128 == p[0] && (p[0] + 128) % 128 == p[0];
    assert p[0 := p[0] + 128][0 := p[0]] == p;
  }

  /** getuint256: the last bytes of the magnitude, the others zero. */
  method GetUint(x: int, width: nat) returns (b: seq<Byte>)
    ensures |b| == width && forall i :: 0 <= i < width ==> b[i] == DigitAt(Body(if x < 0 then -x else x), i)
  {
    var p := Mpi(x);
    if p == [] {
      b := seq(width, _ => 0);
      return;
    }
    SignCleared(x);
    p := p[0 := p[0] % 128];
    b := [];
    while |b| < width
      invariant |b| <= width && forall i :: 0 <= i < |b| ==> b[i] == DigitAt(p, i)
    {
      b := b + [if |b| < |p| then p[|p| - 1 - |b|] else 0];
    }
  }

  /** A fixed-width number survives. */
  method UintRoundTrip(b: seq<Byte>) returns (r: seq<Byte>)
    ensures r == b
  {
    var p := SetUint(b);
    MpiRoundTrip(LittleEndian(b));
    r := GetUint(MpiValue(p), |b|);
    forall i | 0 <= i < |b| ensures r[i] == b[i] {
      DigitsOf(b, i);
    }
  }

  // ---------------------------------------------------------------- GetCompact and SetCompact

  const SIZE_UNIT: int := 0x1000000

  /** GetCompact: the number of bytes, kept to 8 bits, and the first three of them. */
  function GetCompact(x: int): (c: nat)
    ensures c < 0x100000000
  {
    var p := Mpi(x);
    Packed(|p| % 256, At(p, 0), At(p, 1), At(p, 2))
  }

  function Packed(n: nat, b0: nat, b1: nat, b2: nat): nat {
    n * SIZE_UNIT + b0 * 65536 + b1 * 256 + b2
  }

  function At(p: seq<Byte>, i: nat): (b: int)
    ensures 0 <= b < 256
  {
    if i < |p| then p[i] else 0
  }

  lemma Digits(n: nat, b0: nat, b1: nat, b2: nat)
    requires n < 256 && b0 < 256 && b1 < 256 && b2 < 256
    ensures var c := Packed(n, b0, b1, b2);
            c < 0x100000000 && c / SIZE_UNIT == n && c / 65536 % 256 == b0 && c / 256 % 256 == b1 && c % 256 == b2
  {
    var c := n * SIZE_UNIT + b0 * 65536 + b1 * 256 + b2;
    assert c / 65536 == n * 256 + b0;
    assert c / 256 == (n * 256 + b0) * 256 + b1;
  }

  function Zeros(n: nat): (p: seq<Byte>)
    ensures |p| == n
  {
    if n == 0 then [] else Zeros(n - 1) + [0]
  }

  /** The bytes that SetCompact hands to BN_mpi2bn. */
  function CompactBytes(c: nat): (p: seq<Byte>)
    requires c < 0x100000000
    ensures |p| == c / SIZE_UNIT
  {
    BytesOf(c / SIZE_UNIT, c / 65536 % 256, c / 256 % 256, c % 256)
  }

  function BytesOf(n: nat, b0: Byte, b1: Byte, b2: Byte): (p: seq<Byte>)
    ensures |p| == n
  {
    if n == 0 then [] else if n == 1 then [b0] else if n == 2 then [b0, b1] else [b0, b1, b2] + Zeros(n - 3)
  }

  lemma ShortBytes(p: seq<Byte>)
    requires |p| <= 3
    ensures BytesOf(|p|, At(p, 0), At(p, 1), At(p, 2)) == p
  {
    if |p| == 3 {
      var q := BytesOf(3, p[0], p[1], p[2]);
      assert q == [p[0], p[1], p[2]] + Zeros(0);
      assert q[0] == p[0] && q[1] == p[1] && q[2] == p[2];
    }
  }

  lemma LongBytes(p: seq<Byte>)
    requires |p| > 3
    ensures BytesOf(|p|, At(p, 0), At(p, 1), At(p, 2)) == p[..3] + Zeros(|p| - 3)
  {
    assert p[..3] == [p[0], p[1], p[2]];
  }

  function SetCompact(c: nat): int
    requires c < 0x100000000
  {
    MpiValue(CompactBytes(c))
  }

  /** The number of bytes of a positive number. */
  function Size(x: nat): nat {
    if x < 128 then 1 else 1 + Size(x / 256)
  }

  lemma {:induction false} SizeIsLength(x: nat)
    ensures |Body(x)| == Size(x)
  {
    if x >= 128 {
      SizeIsLength(x / 256);
    }
  }

  /** The first three bytes stay the first three under further bytes. */
  lemma HeadStays(x: nat)
    requires Size(x) > 3
    ensures |Body(x / 256)| >= 3 && Body(x)[..3] == Body(x / 256)[..3]
  {
    SizeIsLength(x / 256);
    var q := Body(x / 256);
    assert (q + [x % 256])[..3] == q[..3];
  }

  /** The compact form in closed form for short numbers. */
  lemma CompactShort(x: nat)
    requires x > 0 && Size(x) <= 3
    ensures GetCompact(x) == Size(x) * SIZE_UNIT + x * (if Size(x) == 1 then 65536 else if Size(x) == 2 then 256 else 1)
    ensures x < (if Size(x) == 1 then 128 else if Size(x) == 2 then 32768 else 8388608)
    ensures x >= (if Size(x) == 1 then 1 else if Size(x) == 2 then 128 else 32768)
  {
    SizeIsLength(x);
    BodyValue(x);
    var p := Body(x);
    if x >= 128 {
      assert p == Body(x / 256) + [x % 256];
      if x / 256 >= 128 {
        assert Body(x / 256) == Body(x / 65536) + [x / 256 % 256] by { assert x / 256 / 256 == x / 65536; }
      }
    }
  }

  lemma SameHead(p: seq<Byte>, q: seq<Byte>)
    requires |p| >= 3 && |q| >= 3 && p[..3] == q[..3]
    ensures At(p, 0) == At(q, 0) && At(p, 1) == At(q, 1) && At(p, 2) == At(q, 2)
  {
    assert forall i :: 0 <= i < 3 ==> p[i] == p[..3][i] && q[i] == q[..3][i];
  }

  /** One byte more in a longer number adds one to the size and leaves the rest. */
  lemma CompactNext(x: nat)
    requires 3 < Size(x) <= 255
    ensures GetCompact(x) == GetCompact(x / 256) + SIZE_UNIT
  {
    var p, q := Body(x), Body(x / 256);
    CompactIs(x);
    CompactIs(x / 256);
    SizeIsLength(x);
    HeadStays(x);
    SameHead(p, q);
    PackedNext(Size(x / 256), At(p, 0), At(p, 1), At(p, 2));
  }

  lemma CompactIs(x: nat)
    requires x > 0 && Size(x) <= 255
    ensures var p := Body(x); GetCompact(x) == Packed(Size(x), At(p, 0), At(p, 1), At(p, 2))
  {
    SizeIsLength(x);
  }

  lemma PackedNext(n: nat, b0: nat, b1: nat, b2: nat)
    ensures Packed(n + 1, b0, b1, b2) == Packed(n, b0, b1, b2) + SIZE_UNIT
  {
  }

  lemma {:induction false} SizeMonotone(x: nat, y: nat)
    requires x <= y
    ensures Size(x) <= Size(y)
  {
    if x >= 128 {
      SizeMonotone(x / 256, y / 256);
    }
  }

  lemma {:induction false} CompactAtLeast(x: nat)
    requires 3 < Size(x) <= 255
    ensures GetCompact(x) >= 4 * SIZE_UNIT
  {
    CompactNext(x);
    if Size(x) == 4 {
      CompactShort(x / 256);
    } else {
      CompactAtLeast(x / 256);
    }
  }

  /** The compact form is monotone as an unsigned integer. */
  lemma {:induction false} CompactMonotone(x: nat, y: nat)
    requires x <= y && Size(y) <= 255
    ensures GetCompact(x) <= GetCompact(y)
    decreases y
  {
    SizeMonotone(x, y);
    if x == 0 {
    } else if Size(y) <= 3 {
      CompactShort(x);
      CompactShort(y);
    } else {
      CompactNext(y);
      if Size(x) <= 3 {
        CompactShort(x);
        CompactAtLeast(y);
      } else {
        CompactNext(x);
        CompactMonotone(x / 256, y / 256);
      }
    }
  }

  // ---------------------------------------------------------------- what the compact form keeps

  /** The number with all but its first three bytes cleared. */
  function Truncated(x: nat): nat {
    if Size(x) <= 3 then x else 256 * Truncated(x / 256)
  }

  /** The weight of the third byte. */
  function Unit(x: nat): nat {
    if Size(x) <= 3 then 1 else 256 * Unit(x / 256)
  }

  /** Encoding and decoding clears all but the first three bytes. */
  lemma CompactTruncates(x: nat)
    requires Size(x) <= 255
    ensures SetCompact(GetCompact(x)) == Truncated(x)
  {
    if x > 0 {
      CompactBack(x);
      TruncatedValue(x);
    } else {
      assert CompactBytes(0) == [];
    }
  }

  /** The bytes handed to the decoder: the first three of the number, then zeros. */
  lemma CompactBack(x: nat)
    requires x > 0 && Size(x) <= 255
    ensures var p := Body(x);
            CompactBytes(GetCompact(x)) == if |p| <= 3 then p else p[..3] + Zeros(|p| - 3)
  {
    SizeIsLength(x);
    CompactIs(x);
    var p := Body(x);
    Digits(|p|, At(p, 0), At(p, 1), At(p, 2));
    if |p| <= 3 {
      ShortBytes(p);
    } else {
      LongBytes(p);
    }
  }

  lemma {:induction false} TruncatedValue(x: nat)
    requires x > 0
    ensures var p := Body(x); BigEndian(if |p| <= 3 then p else p[..3] + Zeros(|p| - 3)) == Truncated(x)
  {
    SizeIsLength(x);
    if Size(x) <= 3 {
      BodyValue(x);
    } else {
      TruncatedValue(x / 256);
      SizeIsLength(x / 256);
      HeadStays(x);
      var p, q := Body(x), Body(x / 256);
      assert p[..3] + Zeros(|p| - 3) == (q[..3] + Zeros(|q| - 3)) + [0];
      BigEndianNext(q[..3] + Zeros(|q| - 3), 0);
      if |q| == 3 {
        assert q[..3] + Zeros(0) == q;
      }
    }
  }

  lemma {:induction false} TruncatedClose(x: nat)
    ensures 0 <= x - Truncated(x) < Unit(x) && (Size(x) >= 3 ==> 32768 * Unit(x) <= Truncated(x))
  {
    if Size(x) > 3 {
      TruncatedClose(x / 256);
    } else if Size(x) == 3 {
      CompactShort(x);
    }
  }

  /** Decoding never exceeds the number, misses it by less than one part in 2^15, and is exact for
      numbers of at most three bytes. */
  lemma CompactError(x: nat)
    requires x > 0 && Size(x) <= 255
    ensures var d := SetCompact(GetCompact(x));
            d <= x && (x - d) * 32768 < x && (Size(x) <= 3 ==> d == x)
  {
    CompactTruncates(x);
    TruncatedClose(x);
  }

  /** Cutting bytes off a number of more than three bytes keeps its size and its compact form. */
  lemma {:induction false} CompactOfTruncated(x: nat)
    requires x > 0 && Size(x) <= 255
    ensures Truncated(x) > 0 && Size(Truncated(x)) == Size(x) && GetCompact(Truncated(x)) == GetCompact(x)
  {
    if Size(x) > 3 {
      CompactOfTruncated(x / 256);
      CompactNext(x);
      assert Truncated(x) / 256 == Truncated(x / 256);
      CompactNext(Truncated(x));
    }
  }

  /** Encoding again changes nothing. */
  lemma CompactStable(x: nat)
    requires Size(x) <= 255
    ensures GetCompact(SetCompact(GetCompact(x))) == GetCompact(x)
  {
    CompactTruncates(x);
    if x > 0 {
      CompactOfTruncated(x);
    }
  }

  /** Minimal bytes, and zeros where the size leaves a byte unused. */
  predicate Canonical(c: nat)
    requires c < 0x100000000
  {
    var n := c / SIZE_UNIT;
    && Minimal(CompactBytes(c))
    && (n == 0 ==> c / 65536 % 256 == 0) && (n <= 1 ==> c / 256 % 256 == 0) && (n <= 2 ==> c % 256 == 0)
  }

  lemma {:induction false} SizeAtMost(p: seq<Byte>)
    requires p != [] && p[0] < 128
    ensures Size(BigEndian(p)) <= |p|
  {
    var last := |p| - 1;
    if last == 0 {
      assert p[..0] == [];
    } else {
      SizeAtMost(p[..last]);
      assert BigEndian(p) / 256 == BigEndian(p[..last]);
    }
  }

  lemma MpiNoLonger(p: seq<Byte>)
    ensures |Mpi(MpiValue(p))| <= |p|
  {
    if p != [] {
      var q := if p[0] < 128 then p else p[0 := p[0] - 128];
      SizeAtMost(q);
      SizeIsLength(BigEndian(q));
    }
  }

  lemma MpiMinimal(x: int)
    ensures Minimal(Mpi(x))
  {
    if x > 0 {
      BodyMinimal(x);
    } else if x < 0 {
      BodyMinimal(-x);
    }
  }

  /** The digits of a compact value are the length and the first bytes. */
  lemma HeadOfCompact(p: seq<Byte>, n: nat, b0: Byte, b1: Byte, b2: Byte)
    requires n <= 255 && |p| <= 255
    requires Packed(|p|, At(p, 0), At(p, 1), At(p, 2)) == Packed(n, b0, b1, b2)
    ensures |p| == n && b0 == At(p, 0) && b1 == At(p, 1) && b2 == At(p, 2)
  {
    Digits(|p|, At(p, 0), At(p, 1), At(p, 2));
    Digits(n, b0, b1, b2);
  }

  lemma HeadOfBytes(n: nat, b0: Byte, b1: Byte, b2: Byte)
    requires (n == 0 ==> b0 == 0) && (n <= 1 ==> b1 == 0) && (n <= 2 ==> b2 == 0)
    ensures var p := BytesOf(n, b0, b1, b2); At(p, 0) == b0 && At(p, 1) == b1 && At(p, 2) == b2
  {
  }

  lemma MinimalBack(n: nat, b0: Byte, b1: Byte, b2: Byte)
    requires n <= 255 && Minimal(BytesOf(n, b0, b1, b2)) && (n == 0 ==> b0 == 0) && (n <= 1 ==> b1 == 0)
      && (n <= 2 ==> b2 == 0)
    ensures GetCompact(MpiValue(BytesOf(n, b0, b1, b2))) == Packed(n, b0, b1, b2)
  {
    var p := BytesOf(n, b0, b1, b2);
    HeadOfBytes(n, b0, b1, b2);
    MpiBytesRoundTrip(p);
    PackedSmall(MpiValue(p));
  }

  lemma CanonicalBack(c: nat)
    requires c < 0x100000000 && Canonical(c)
    ensures GetCompact(SetCompact(c)) == c
  {
    Unpacked(c);
    MinimalBack(c / SIZE_UNIT, c / 65536 % 256, c / 256 % 256, c % 256);
  }

  lemma BackCanonical(c: nat)
    requires c < 0x100000000 && GetCompact(SetCompact(c)) == c
    ensures Canonical(c)
  {
    Unpacked(c);
    BackMinimal(c / SIZE_UNIT, c / 65536 % 256, c / 256 % 256, c % 256);
  }

  lemma PackedSmall(x: int)
    requires |Mpi(x)| <= 255
    ensures var p := Mpi(x); GetCompact(x) == Packed(|p|, At(p, 0), At(p, 1), At(p, 2))
  {
  }

  lemma BackMinimal(n: nat, b0: Byte, b1: Byte, b2: Byte)
    requires n <= 255 && GetCompact(MpiValue(BytesOf(n, b0, b1, b2))) == Packed(n, b0, b1, b2)
    ensures Minimal(BytesOf(n, b0, b1, b2)) && (n == 0 ==> b0 == 0) && (n <= 1 ==> b1 == 0) && (n <= 2 ==> b2 == 0)
  {
    var q := BytesOf(n, b0, b1, b2);
    var p := Mpi(MpiValue(q));
    MpiNoLonger(q);
    MpiMinimal(MpiValue(q));
    PackedSmall(MpiValue(q));
    HeadOfCompact(p, n, b0, b1, b2);
    SameMinimal(p, q);
  }

  lemma SameMinimal(p: seq<Byte>, q: seq<Byte>)
    requires |p| == |q| && Minimal(p) && q == BytesOf(|p|, At(p, 0), At(p, 1), At(p, 2))
    ensures Minimal(q)
  {
  }

  /** A compact value is recovered exactly if it is canonical. */
  lemma CompactValueRoundTrip(c: nat)
    requires c < 0x100000000
    ensures GetCompact(SetCompact(c)) == c <==> Canonical(c)
  {
    if Canonical(c) {
      CanonicalBack(c);
    }
    if GetCompact(SetCompact(c)) == c {
      BackCanonical(c);
    }
  }

  lemma Unpacked(c: nat)
    requires c < 0x100000000
    ensures c == Packed(c / SIZE_UNIT, c / 65536 % 256, c / 256 % 256, c % 256)
  {
    assert c / 65536 / 256 == c / SIZE_UNIT;
    assert c / 256 / 256 == c / 65536;
  }

  // ---------------------------------------------------------------- what a compact value stands for

  function Power256(n: nat): nat {
    if n == 0 then 1 else 256 * Power256(n - 1)
  }

  lemma Scale(x: nat, y: nat)
    ensures x * y * 256 == x * (256 * y)
  {
  }

  lemma {:induction false} BigEndianZeros(p: seq<Byte>, n: nat)
    ensures BigEndian(p + Zeros(n)) == BigEndian(p) * Power256(n)
  {
    if n == 0 {
      assert p + Zeros(0) == p;
    } else {
      BigEndianZeros(p, n - 1);
      assert p + Zeros(n) == (p + Zeros(n - 1)) + [0];
      BigEndianNext(p + Zeros(n - 1), 0);
      Scale(BigEndian(p), Power256(n - 1));
    }
  }

  lemma ThreeBytes(b0: Byte, b1: Byte, b2: Byte)
    ensures BigEndian([b0, b1, b2]) == b0 * 65536 + b1 * 256 + b2
  {
    assert [b0, b1, b2] == [] + [b0] + [b1] + [b2];
    BigEndianNext([], b0);
    BigEndianNext([b0], b1);
    BigEndianNext([b0] + [b1], b2);
  }

  /** The value of a sign, three digits to base 256 and a number of zeros. */
  lemma FloatValue(n: nat, b0: Byte, b1: Byte, b2: Byte, m: nat)
    requires n >= 3 && m == b0 % 128 * 65536 + b1 * 256 + b2
    ensures MpiValue(BytesOf(n, b0, b1, b2)) == if b0 >= 128 then 0 - m * Power256(n - 3) else m * Power256(n - 3)
  {
    var p, q := BytesOf(n, b0, b1, b2), [b0 % 128, b1, b2] + Zeros(n - 3);
    assert b0 % 128 == if b0 >= 128 then b0 - 128 else b0;
    assert q == if b0 >= 128 then p[0 := b0 - 128] else p;
    BigEndianZeros([b0 % 128, b1, b2], n - 3);
    ThreeBytes(b0 % 128, b1, b2);
    assert p[0] == b0;
  }

  lemma LowBits(n: nat, b0: Byte, b1: Byte, b2: Byte)
    ensures var c := Packed(n, b0, b1, b2);
            && c % 0x80_0000 == b0 % 128 * 65536 + b1 * 256 + b2
            && (c / 0x80_0000 % 2 == 1 <==> b0 >= 128)
  {
    var c, low := Packed(n, b0, b1, b2), b0 % 128 * 65536 + b1 * 256 + b2;
    assert c == (2 * n + b0 / 128) * 0x80_0000 + low;
    assert 0 <= low < 0x80_0000;
    assert c / 0x80_0000 == 2 * n + b0 / 128;
  }

  /** A compact value of three or more bytes: the last 23 bits times 256 to the power of the first byte less three,
      negative if the bit between them is set. */
  lemma CompactStandsFor(c: nat)
    requires c < 0x1_0000_0000 && c / SIZE_UNIT >= 3
    ensures var x := c % 0x80_0000 * Power256(c / SIZE_UNIT - 3);
            SetCompact(c) == if c / 0x80_0000 % 2 == 1 then 0 - x else x
  {
    Unpacked(c);
    LowBits(c / SIZE_UNIT, c / 65536 % 256, c / 256 % 256, c % 256);
    FloatValue(c / SIZE_UNIT, c / 65536 % 256, c / 256 % 256, c % 256, c % 0x80_0000);
  }
}
