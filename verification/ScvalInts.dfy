/**
 The 128- and 256-bit integer converters of bindings/scval and the two further
 i128/u128 decoders elsewhere in the repository.  Err stands for the panic or
 error return.
 */
module ScvalInts {
  import opened Wrappers
  import opened Words
  import opened Xdr

  // v.Lsh(64) and v.Rsh(64): the shift floors for negative numbers.
  function Shl64(v: int): int { v * TWO64 }
  function Shr64(v: int): int { v / TWO64 }

  // ---- i128 -----------------------------------------------------------------

  function I128ToScVal(v: Option<int>): Result<ScVal, string>
  {
    match v
    case None => Err("nil value")
    case Some(n) =>
      var max := TWO127;
      var min := -(max - 1);
      if n < min || n > max then Err("out of i128 range")
      else
        AndMaskIsMod(n, 64); Pow2Values();
        var lo := BitAnd(n, TWO64 - 1);
        var hi := AsInt64(Shr64(n));
        Ok(ScvI128(Some(Int128Parts(hi, lo as uint64))))
  }

  // bindings/scval: the sign-extended high word or-ed with the low word.
  function I128FromScVal(val: ScVal): Result<int, string>
  {
    match val
    case ScvI128(Some(p)) => Ok(BitOr(Shl64(p.hi as int), p.lo as int))
    case _ => Err("not an i128 type")
  }

  // ccv/source_reader: the same decode written with an addition.
  function AmountFromParts(p: Int128Parts): int { Shl64(p.hi as int) + p.lo as int }

  lemma I128DecodersAgree(p: Int128Parts)
    ensures I128FromScVal(ScvI128(Some(p))) == Ok(AmountFromParts(p))
    ensures -TWO127 <= AmountFromParts(p) < TWO127
  {
    Pow2Values();
    OrLowWordIsSum(p.hi as int, p.lo as int, 64);
  }

  // The documented range is [-2^127, 2^127 - 1]; the guard admits (-2^127, 2^127].
  lemma I128AcceptedRange(v: int)
    ensures I128ToScVal(Some(v)).Ok? <==> -TWO127 < v <= TWO127
  {
  }

  lemma HighWord(v: int)
    requires -TWO127 < v <= TWO127
    ensures -TWO63 <= v / TWO64 <= TWO63 && 0 <= v % TWO64 < TWO64
    ensures v / TWO64 == TWO63 <==> v == TWO127
    ensures v == Shl64(v / TWO64) + v % TWO64
  {
  }

  lemma I128Words(v: int)
    requires -TWO127 < v <= TWO127
    ensures 0 <= v % TWO64 < TWO64
    ensures I128ToScVal(Some(v)) == Ok(ScvI128(Some(Int128Parts(AsInt64(v / TWO64), (v % TWO64) as uint64))))
  {
    AndMaskIsMod(v, 64);
    Pow2Values();
    HighWord(v);
  }

  // Among the accepted values, exactly the ones below 2^127 survive the round trip.
  lemma I128RoundTrip(v: int)
    requires I128ToScVal(Some(v)).Ok?
    ensures I128FromScVal(I128ToScVal(Some(v)).value) == Ok(v) <==> v < TWO127
  {
    I128AcceptedRange(v);
    hide BitOr, BitAnd, I128ToScVal, AsInt64;
    I128Words(v);
    HighWord(v);
    SignedHighWord(v / TWO64);
    I128DecodersAgree(Int128Parts(AsInt64(v / TWO64), (v % TWO64) as uint64));
  }

  // Only one past the largest int64 wraps.
  lemma SignedHighWord(hi: int)
    requires -TWO63 <= hi <= TWO63
    ensures AsInt64(hi) as int == if hi == TWO63 then -TWO63 else hi
  {
  }

  // Both misses at the ends of the range: 2^127 comes back as -2^127, and
  // -2^127 itself is refused although every i128 on chain may hold it.
  lemma I128RangeEnds()
    ensures I128ToScVal(Some(TWO127)).Ok? && I128FromScVal(I128ToScVal(Some(TWO127)).value) == Ok(-TWO127)
    ensures I128ToScVal(Some(-TWO127)).Err?
    ensures I128FromScVal(ScvI128(Some(Int128Parts((-TWO63) as int64, 0)))) == Ok(-TWO127)
  {
    I128Words(TWO127);
    HighWord(TWO127);
    I128DecodersAgree(Int128Parts((-TWO63) as int64, 0));
  }

  // Every pair of words decodes, and re-encodes to itself unless it is the minimum.
  lemma I128WordsRoundTrip(p: Int128Parts)
    ensures var v := AmountFromParts(p);
            I128ToScVal(Some(v)) == Ok(ScvI128(Some(p))) <==> v != -TWO127
  {
    var v := AmountFromParts(p);
    I128DecodersAgree(p);
    I128AcceptedRange(v);
    ModUnique(v, p.hi as int, p.lo as int, TWO64);
    if v != -TWO127 {
      I128Words(v);
      hide BitOr, BitAnd, I128ToScVal, AsInt64;
      SignedHighWord(p.hi as int);
    }
  }

  // ---- u128 -----------------------------------------------------------------

  // deployment/adapters: a nil amount is zero.
  function BigIntToU128(v: Option<int>): Result<UInt128Parts, string>
  {
    match v
    case None => Ok(UInt128Parts(0, 0))
    case Some(n) =>
      if n < 0 then Err("negative amount")
      else if BitLen(n) > 128 then Err("exceeds the 128-bit limit")
      else
        AndMaskIsMod(n, 64); Pow2Values(); Pow2Sum(64, 64); BitLenExceeds(n, 128);
        U128Fits(n);
        Ok(UInt128Parts(Shr64(n) as uint64, BitAnd(n, TWO64 - 1) as uint64))
  }

  lemma U128Fits(n: nat)
    ensures n <= Pow2(128) ==> Pow2(128) == TWO128 && (n < TWO128 ==> Shr64(n) < TWO64)
    ensures BitLen(n) <= 128 <==> n < TWO128
  {
    Pow2Values();
    Pow2Sum(64, 64);
    BitLenExceeds(n, 128);
  }

  function U128ToBigInt(p: UInt128Parts): int { BitOr(Shl64(p.hi as int), p.lo as int) }

  lemma BigIntToU128Range(v: int)
    ensures BigIntToU128(Some(v)).Ok? <==> 0 <= v < TWO128
  {
    if v >= 0 { U128Fits(v); }
  }

  lemma U128RoundTrip(v: int)
    requires 0 <= v < TWO128
    ensures BigIntToU128(Some(v)).Ok? && U128ToBigInt(BigIntToU128(Some(v)).value) == v
  {
    hide BitOr, BitAnd, BitLen;
    U128Fits(v);
    Pow2Values();
    AndMaskIsMod(v, 64);
    var p := BigIntToU128(Some(v)).value;
    OrLowWordIsSum(p.hi as int, p.lo as int, 64);
  }

  lemma U128WordsRoundTrip(p: UInt128Parts)
    ensures 0 <= U128ToBigInt(p) < TWO128
    ensures BigIntToU128(Some(U128ToBigInt(p))) == Ok(p)
  {
    Pow2Values();
    OrLowWordIsSum(p.hi as int, p.lo as int, 64);
    var v := U128ToBigInt(p);
    U128Fits(v);
    AndMaskIsMod(v, 64);
    ModUnique(v, p.hi as int, p.lo as int, TWO64);
  }

  // ---- i256 -----------------------------------------------------------------

  // binary.BigEndian.Uint64 / PutUint64 on an eight-byte slice.
  function Uint64At(buf: seq<byte>): uint64
    requires |buf| == 8
  {
    ToNatBound(buf); Pow256Values();
    ToNat(buf) as uint64
  }

  function PutUint64(v: uint64): (buf: seq<byte>)
    ensures |buf| == 8
  {
    FromNat(v as nat, 8)
  }

  function I256ToScVal(v: Option<int>): Result<ScVal, string>
  {
    var n := if v.None? then 0 else v.value;
    if n > TWO255 - 1 || n < -TWO255 then Err("out of i256 range")
    else
      var tc := if n < 0 then n + TWO256 else n;
      Ok(ScvI256(Some(PartsOf(FromNat(tc, 32)))))
  }

  function PartsOf(buf: seq<byte>): Int256Parts
    requires |buf| == 32
  {
    Int256Parts(AsInt64(Uint64At(buf[0..8]) as int), Uint64At(buf[8..16]),
                Uint64At(buf[16..24]), Uint64At(buf[24..32]))
  }

  // The local 32-byte buffer, filled word by word.
  function I256Buffer(p: Int256Parts): (buf: seq<byte>)
    ensures |buf| == 32
  {
    PutUint64(AsUint64(p.hiHi)) + PutUint64(p.hiLo) + PutUint64(p.loHi) + PutUint64(p.loLo)
  }

  function I256FromScVal(val: ScVal): Result<int, string>
  {
    match val
    case ScvI256(Some(p)) =>
      var buf := I256Buffer(p);
      var v := ToNat(buf);
      if buf[0] >= 128 then Ok(v - TWO256) else Ok(v)
    case _ => Err("expected i256 ScVal")
  }

  lemma WordBytes(buf: seq<byte>)
    requires |buf| == 8
    ensures PutUint64(Uint64At(buf)) == buf
    ensures AsUint64(AsInt64(Uint64At(buf) as int)) == Uint64At(buf)
  {
    FromToNat(buf);
  }

  lemma BufferOfParts(buf: seq<byte>)
    requires |buf| == 32
    ensures I256Buffer(PartsOf(buf)) == buf
  {
    hide PutUint64, Uint64At, AsInt64, AsUint64;
    WordBytes(buf[0..8]); WordBytes(buf[8..16]); WordBytes(buf[16..24]); WordBytes(buf[24..32]);
    InFour(buf);
  }

  lemma InFour(buf: seq<byte>)
    requires |buf| == 32
    ensures buf[0..8] + buf[8..16] + buf[16..24] + buf[24..32] == buf
  {
    assert buf[0..8] + buf[8..16] + buf[16..24] + buf[24..32] == buf;
  }

  lemma I256RoundTrip(v: int)
    ensures I256ToScVal(Some(v)).Ok? <==> -TWO255 <= v < TWO255
    ensures -TWO255 <= v < TWO255 ==> I256FromScVal(I256ToScVal(Some(v)).value) == Ok(v)
    ensures I256ToScVal(None) == I256ToScVal(Some(0))
  {
    hide FromNat, ToNat, PartsOf, I256Buffer;
    if -TWO255 <= v < TWO255 {
      var tc := if v < 0 then v + TWO256 else v;
      var buf := FromNat(tc, 32);
      BufferOfParts(buf);
      TopBit(buf);
      Pow256Values();
      ToFromNat(tc, 32);
    }
  }

  // Every four words decode into the range, and re-encode to themselves.
  lemma I256WordsRoundTrip(p: Int256Parts)
    ensures I256FromScVal(ScvI256(Some(p))).Ok?
    ensures -TWO255 <= I256FromScVal(ScvI256(Some(p))).value < TWO255
    ensures I256ToScVal(Some(I256FromScVal(ScvI256(Some(p))).value)) == Ok(ScvI256(Some(p)))
  {
    var buf := I256Buffer(p);
    BufferWords(p);
    TopBit(buf);
    FromToNat(buf);
    var v := I256FromScVal(ScvI256(Some(p))).value;
    assert (if v < 0 then v + TWO256 else v) == ToNat(buf);
  }

  lemma WordAt(v: uint64)
    ensures Uint64At(PutUint64(v)) == v
  {
    Pow256Values();
    ToFromNat(v as nat, 8);
  }

  lemma BufferWords(p: Int256Parts)
    ensures PartsOf(I256Buffer(p)) == p
  {
    hide PutUint64, Uint64At, AsInt64, AsUint64;
    FourWords(PutUint64(AsUint64(p.hiHi)), PutUint64(p.hiLo), PutUint64(p.loHi), PutUint64(p.loLo));
    WordAt(AsUint64(p.hiHi)); WordAt(p.hiLo); WordAt(p.loHi); WordAt(p.loLo);
    SignedAgain(p.hiHi);
  }

  lemma FourWords(a: seq<byte>, b: seq<byte>, c: seq<byte>, d: seq<byte>)
    requires |a| == |b| == |c| == |d| == 8
    ensures var buf := a + b + c + d;
            buf[0..8] == a && buf[8..16] == b && buf[16..24] == c && buf[24..32] == d
  {
  }

  lemma SignedAgain(v: int64)
    ensures AsInt64(AsUint64(v) as int) == v
  {
  }

  // ---- what the words are worth -------------------------------------------------

  lemma I128Value(p: Int128Parts)
    ensures I128FromScVal(ScvI128(Some(p))) == Ok(p.hi as int * 0x1_0000_0000_0000_0000 + p.lo as int)
  {
    I128DecodersAgree(p);
  }

  lemma U128Value(p: UInt128Parts)
    ensures U128ToBigInt(p) == p.hi as int * 0x1_0000_0000_0000_0000 + p.lo as int
  {
    Pow2Values();
    OrLowWordIsSum(p.hi as int, p.lo as int, 64);
  }

  // The high word is signed, the other three are not.
  lemma I256Value(p: Int256Parts)
    ensures I256FromScVal(ScvI256(Some(p))) ==
            Ok(((p.hiHi as int * TWO64 + p.hiLo as int) * TWO64 + p.loHi as int) * TWO64 + p.loLo as int)
  {
    var hi := AsUint64(p.hiHi);
    PutValue(hi); PutValue(p.hiLo); PutValue(p.loHi); PutValue(p.loLo);
    FourWordsValue(PutUint64(hi), PutUint64(p.hiLo), PutUint64(p.loHi), PutUint64(p.loLo));
    TopBit(I256Buffer(p));
    hide PutUint64, ToNat;
    SignedTop(p.hiHi, (p.hiLo as int * TWO64 + p.loHi as int) * TWO64 + p.loLo as int);
  }

  lemma FourWordsValue(a: seq<byte>, b: seq<byte>, c: seq<byte>, d: seq<byte>)
    requires |a| == |b| == |c| == |d| == 8
    ensures ToNat(a + b + c + d) == ((ToNat(a) * TWO64 + ToNat(b)) * TWO64 + ToNat(c)) * TWO64 + ToNat(d)
  {
    Pow256Values();
    ToNatConcat(a, b);
    ToNatConcat(a + b, c);
    ToNatConcat(a + b + c, d);
    hide ToNat, Pow256;
  }

  // The sign of 256 bits is that of their top word.
  lemma SignedTop(hi: int64, low: int)
    requires 0 <= low < TWO64 * TWO64 * TWO64
    ensures var n := AsUint64(hi) as int * (TWO64 * TWO64 * TWO64) + low;
            (if n >= TWO255 then n - TWO256 else n) == hi as int * (TWO64 * TWO64 * TWO64) + low
  {
  }

  lemma PutValue(v: uint64)
    ensures ToNat(PutUint64(v)) == v as int
  {
    Pow256Values();
    ToFromNat(v as nat, 8);
  }
}
