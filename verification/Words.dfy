/**
 Machine words and big-endian byte strings.  Go's `big.Int` is an unbounded
 integer whose bitwise operators act on infinite two's complement, so they are
 defined bit by bit on `int` here, and the arithmetic the converters rely on
 (masking is a remainder, or-ing a low word under a shifted high word is a sum)
 is proved from those definitions.
 */
module Words {
  import opened Wrappers

  newtype byte = x: int | 0 <= x < 256

  const TWO63: int := 0x8000_0000_0000_0000
  const TWO64: int := 0x1_0000_0000_0000_0000
  const TWO127: int := 0x8000_0000_0000_0000_0000_0000_0000_0000
  const TWO128: int := 0x1_0000_0000_0000_0000_0000_0000_0000_0000
  const TWO255: int := 0x8000_0000_0000_0000_0000_0000_0000_0000_0000_0000_0000_0000_0000_0000_0000_0000
  const TWO256: int := 0x1_0000_0000_0000_0000_0000_0000_0000_0000_0000_0000_0000_0000_0000_0000_0000_0000

  newtype uint32 = x: int | 0 <= x < 0x1_0000_0000
  newtype int32 = x: int | -0x8000_0000 <= x < 0x8000_0000
  newtype uint64 = x: int | 0 <= x < 0x1_0000_0000_0000_0000
  newtype int64 = x: int | -0x8000_0000_0000_0000 <= x < 0x8000_0000_0000_0000

  function Pow2(k: nat): (p: nat)
    ensures p >= 1
  {
    if k == 0 then 1 else 2 * Pow2(k - 1)
  }

  lemma Pow2Values()
    ensures Pow2(64) == TWO64
  {
    Pow2Doubles(1, 2);
    Pow2Doubles(2, 4);
    Pow2Doubles(4, 16);
    Pow2Doubles(8, 256);
    Pow2Doubles(16, 0x1_0000);
    Pow2Doubles(32, 0x1_0000_0000);
  }

  lemma Pow2Doubles(a: nat, v: int)
    requires Pow2(a) == v
    ensures Pow2(a + a) == v * v
  {
    Pow2Sum(a, a);
  }

  lemma {:induction false} Pow2Sum(a: nat, b: nat)
    ensures Pow2(a + b) == Pow2(a) * Pow2(b)
  {
    if a == 0 {
    } else {
      Pow2Sum(a - 1, b);
      assert Pow2(a + b) == 2 * Pow2(a - 1 + b);
    }
  }

  // ---- bitwise operators on infinite two's complement --------------------

  // Euclidean division by 2 floors, so a % 2 is the low bit and a / 2 the
  // arithmetic shift, for negative numbers too; 0 and -1 are all-zeros and
  // all-ones.
  function Size(a: int): nat { if a < 0 then -a - 1 else a }

  function BitAnd(a: int, b: int): int
    decreases Size(a) + Size(b)
  {
    if a == 0 || b == 0 then 0
    else if a == -1 then b
    else if b == -1 then a
    else 2 * BitAnd(a / 2, b / 2) + (if a % 2 == 1 && b % 2 == 1 then 1 else 0)
  }

  function BitOr(a: int, b: int): int
    decreases Size(a) + Size(b)
  {
    if a == -1 || b == -1 then -1
    else if a == 0 then b
    else if b == 0 then a
    else 2 * BitOr(a / 2, b / 2) + (if a % 2 == 1 || b % 2 == 1 then 1 else 0)
  }

  lemma HalfShifted(v: int, m: int)
    requires m > 0
    ensures (v * (2 * m)) / 2 == v * m && (v * (2 * m)) % 2 == 0
  {
    assert v * (2 * m) == 2 * (v * m);
  }

  // Masking the low k bits is the remainder modulo 2^k, for every sign.
  lemma {:induction false} AndMaskIsMod(v: int, k: nat)
    ensures BitAnd(v, Pow2(k) - 1) == v % Pow2(k)
    decreases k
  {
    var p := Pow2(k);
    if k == 0 {
    } else {
      var h := Pow2(k - 1);
      assert (p - 1) / 2 == h - 1 && (p - 1) % 2 == 1;
      AndMaskIsMod(v / 2, k - 1);
      ModDouble(v, h);
      if v == -1 {
        ModUnique(v, -1, p - 1, p);
      }
    }
  }

  lemma ModUnique(v: int, q: int, r: int, p: int)
    requires p > 0 && 0 <= r < p && v == q * p + r
    ensures v % p == r && v / p == q
  {
    var d := v / p - q;
    assert v == (v / p) * p + v % p;
    assert d * p == r - v % p by { assert d * p == (v / p) * p - q * p; }
    MulSpread(d, p);
  }

  lemma MulSpread(d: int, p: int)
    requires p > 0
    ensures d >= 1 ==> d * p >= p
    ensures d <= -1 ==> d * p <= -p
  {
  }

  lemma ModDouble(v: int, h: int)
    requires h > 0
    ensures v % (2 * h) == 2 * ((v / 2) % h) + v % 2
  {
    var u := v / 2;
    var q := u / h;
    assert u == q * h + u % h;
    assert v == 2 * u + v % 2;
    assert v == q * (2 * h) + (2 * (u % h) + v % 2) by { assert 2 * (q * h) == q * (2 * h); }
    ModUnique(v, q, 2 * (u % h) + v % 2, 2 * h);
  }

  // Or-ing a k-bit word under a high part shifted left by k bits adds them.
  lemma {:induction false} OrLowWordIsSum(hi: int, lo: int, k: nat)
    requires 0 <= lo < Pow2(k)
    ensures BitOr(hi * Pow2(k), lo) == hi * Pow2(k) + lo
    decreases k
  {
    if k == 0 {
    } else {
      var h := Pow2(k - 1);
      HalfShifted(hi, h);
      OrLowWordIsSum(hi, lo / 2, k - 1);
      if hi * Pow2(k) == 0 || lo == 0 {
        if hi * Pow2(k) == -1 { assert false; }
      } else {
        assert hi * Pow2(k) != -1;
        assert BitOr(hi * Pow2(k), lo) == 2 * BitOr(hi * h, lo / 2) + (if lo % 2 == 1 then 1 else 0);
      }
    }
  }

  // big.Int.BitLen of a non-negative number.
  function BitLen(v: nat): nat { if v == 0 then 0 else 1 + BitLen(v / 2) }

  lemma {:induction false} BitLenExceeds(v: nat, k: nat)
    ensures BitLen(v) > k <==> v >= Pow2(k)
    decreases k
  {
    if k > 0 && v > 0 {
      BitLenExceeds(v / 2, k - 1);
    }
  }

  // big.Int.Int64 and the uint64-to-int64 conversion: the low 64 bits read as
  // two's complement.
  function AsInt64(v: int): (r: int64)
    ensures (r as int - v) % TWO64 == 0
  {
    var m := v % TWO64;
    if m >= TWO63 then (m - TWO64) as int64 else m as int64
  }

  // The int64-to-uint64 conversion.
  function AsUint64(v: int64): (r: uint64)
    ensures (r as int - v as int) % TWO64 == 0
  {
    if v < 0 then (v as int + TWO64) as uint64 else v as uint64
  }

  // ---- big-endian byte strings --------------------------------------------

  function Pow256(k: nat): (p: nat)
    ensures p >= 1
  {
    if k == 0 then 1 else 256 * Pow256(k - 1)
  }

  lemma Pow256Values()
    ensures Pow256(8) == TWO64 && Pow256(16) == TWO128 && Pow256(31) * 128 == TWO255 && Pow256(32) == TWO256
  {
    assert Pow256(4) == 0x1_0000_0000;
    Pow256Sum(4, 4);
    Pow256Sum(8, 8);
    Pow256Sum(16, 16);
    assert Pow256(32) == 256 * Pow256(31);
  }

  lemma {:induction false} Pow256Sum(a: nat, b: nat)
    ensures Pow256(a + b) == Pow256(a) * Pow256(b)
  {
    if a == 0 {
    } else {
      Pow256Sum(a - 1, b);
      assert Pow256(a + b) == 256 * Pow256(a - 1 + b);
    }
  }

  // The number a big-endian byte string denotes (big.Int.SetBytes, Uint64).
  function ToNat(bs: seq<byte>): (n: nat)
  {
    if bs == [] then 0 else ToNat(bs[..|bs| - 1]) * 256 + bs[|bs| - 1] as int
  }

  // The big-endian form of n in exactly `width` bytes, zero-extended on the
  // left (big.Int.FillBytes, PutUint64).
  function FromNat(n: nat, width: nat): (bs: seq<byte>)
    ensures |bs| == width
  {
    if width == 0 then [] else FromNat(n / 256, width - 1) + [(n % 256) as byte]
  }

  lemma ToNatLast(bs: seq<byte>)
    requires bs != []
    ensures ToNat(bs) == ToNat(bs[..|bs| - 1]) * 256 + bs[|bs| - 1] as int
  {
  }

  lemma {:induction false} ToNatBound(bs: seq<byte>)
    ensures ToNat(bs) < Pow256(|bs|)
  {
    if bs != [] {
      ToNatBound(bs[..|bs| - 1]);
    }
  }

  lemma {:induction false} FromToNat(bs: seq<byte>)
    ensures FromNat(ToNat(bs), |bs|) == bs
  {
    if bs != [] {
      var init := bs[..|bs| - 1];
      FromToNat(init);
      ToNatLast(bs);
      ModUnique(ToNat(bs), ToNat(init), bs[|bs| - 1] as int, 256);
      hide ToNat;
      assert bs == init + [bs[|bs| - 1]];
    }
  }

  lemma {:induction false} ToFromNat(n: nat, width: nat)
    requires n < Pow256(width)
    ensures ToNat(FromNat(n, width)) == n
  {
    if width != 0 {
      ToFromNat(n / 256, width - 1);
      var init := FromNat(n / 256, width - 1);
      assert FromNat(n, width) == init + [(n % 256) as byte];
      hide FromNat;
      InitOfSnoc(init, (n % 256) as byte);
      ToNatLast(FromNat(n, width));
      hide ToNat;
    }
  }

  lemma MulAssoc(x: int, p: int)
    ensures (x * p) * 256 == x * (256 * p)
  {
  }

  lemma {:induction false} ToNatConcat(a: seq<byte>, b: seq<byte>)
    ensures ToNat(a + b) == ToNat(a) * Pow256(|b|) + ToNat(b)
  {
    if b == [] {
      assert a + b == a;
    } else {
      var init := b[..|b| - 1];
      ToNatConcat(a, init);
      assert (a + b)[..|a + b| - 1] == a + init;
      MulAssoc(ToNat(a), Pow256(|b| - 1));
    }
  }

  // The top byte of a byte string is its number divided by the weight of the rest.
  lemma TopByte(bs: seq<byte>)
    requires bs != []
    ensures ToNat(bs) == bs[0] as int * Pow256(|bs| - 1) + ToNat(bs[1..])
    ensures ToNat(bs[1..]) < Pow256(|bs| - 1)
  {
    assert bs == [bs[0]] + bs[1..];
    ToNatConcat([bs[0]], bs[1..]);
    ToNatBound(bs[1..]);
    assert ToNat([bs[0]]) == bs[0] as int;
  }

  // The top bit of a 32-byte word is set exactly from 2^255 on.
  lemma TopBit(bs: seq<byte>)
    requires |bs| == 32
    ensures bs[0] >= 128 <==> ToNat(bs) >= TWO255
    ensures ToNat(bs) < TWO256
  {
    TopByte(bs);
    ToNatBound(bs);
    Pow256Values();
    hide ToNat, Pow256;
    var b, w := bs[0] as int, Pow256(31);
    if b >= 128 {
      MulSpread(b - 127, w);
      assert b * w == (b - 128) * w + 128 * w;
    } else {
      MulSpread(128 - b, w);
      assert 128 * w == (128 - b) * w + b * w;
    }
  }
}
