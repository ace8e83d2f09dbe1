/**
 ccv/contract_transmitter: rewriting the S words of a verifier blob, in place
 on a copy, from the v=27-normalized form to the EIP-2098 compact form.

 Blob layout: 4 bytes version tag, 2 bytes big-endian payload length, then
 64-byte R||S pairs, then any trailing bytes.
 */
module Eip2098 {
  import opened Wrappers
  import opened Words

  // The order n of the secp256k1 group (SEC 2, section 2.4.1) and n/2.
  const N: nat := 0xFFFF_FFFF_FFFF_FFFF_FFFF_FFFF_FFFF_FFFE_BAAE_DCE6_AF48_A03B_BFD2_5E8C_D036_4141
  const HALF_N: nat := N / 2

  const HEADER: nat := 6
  const SIG: nat := 64

  type Word = w: seq<byte> | |w| == 32 witness FromNat(0, 32)

  function SetTopBit(b: byte): byte { if b < 128 then b + 128 else b }

  // One S word. big.Int.Bytes is the absolute value, right-aligned by the copy.
  function RewriteWord(w: Word): (r: Word)
  {
    var s := ToNat(w);
    if s > HALF_N then
      var diff := if s <= N then N - s else s - N;
      var padded := FromNat(diff, 32);
      padded[0 := SetTopBit(padded[0])]
    else w
  }

  // The EIP-2098 reading of a compact S word: yParity in the top bit, s below it.
  datatype Compact = Compact(yParity: nat, s: nat)

  function DecodeCompact(w: Word): Compact
  {
    if w[0] >= 128 then TopBit(w); Compact(1, ToNat(w) - TWO255) else Compact(0, ToNat(w))
  }

  // The normalized S an EIP-2098 signature stands for.
  function Normalize(c: Compact): int { if c.yParity == 1 then N - c.s else c.s }

  lemma SetTopBitAdds(w: Word)
    requires w[0] < 128
    ensures ToNat(w[0 := SetTopBit(w[0])]) == ToNat(w) + TWO255
  {
    var x := w[0 := SetTopBit(w[0])];
    assert x[1..] == w[1..];
    TopByte(w);
    TopByte(x);
    Pow256Values();
    assert (w[0] as int + 128) * Pow256(31) == w[0] as int * Pow256(31) + 128 * Pow256(31);
  }

  // The compact word carries the low-s form: s <= n/2 with the parity of the flip.
  lemma RewriteDecodes(w: Word)
    ensures var c := DecodeCompact(RewriteWord(w)); var s := ToNat(w);
            c == if s <= HALF_N then Compact(0, s) else Compact(1, if s <= N then N - s else s - N)
    ensures DecodeCompact(RewriteWord(w)).s <= HALF_N
  {
    var s := ToNat(w);
    TopBit(w);
    if s > HALF_N { FlipDecodes(if s <= N then N - s else s - N); }
    hide ToNat, FromNat, SetTopBit;
  }

  lemma FlipDecodes(diff: nat)
    requires diff < TWO255
    ensures var padded := FromNat(diff, 32); DecodeCompact(padded[0 := SetTopBit(padded[0])]) == Compact(1, diff)
  {
    var padded := FromNat(diff, 32);
    Pow256Values();
    ToFromNat(diff, 32);
    TopBit(padded);
    SetTopBitAdds(padded);
    hide ToNat, FromNat;
  }

  // Undoing the flip recovers S exactly when S does not exceed the group order.
  lemma UndoRecovers(w: Word)
    ensures Normalize(DecodeCompact(RewriteWord(w))) == ToNat(w) <==> ToNat(w) <= N
  {
    RewriteDecodes(w);
  }

  // Above the order two different words meet: n - 1 and n + 1 rewrite alike.
  lemma CollidesAboveOrder()
    ensures RewriteWord(FromNat(N - 1, 32)) == RewriteWord(FromNat(N + 1, 32))
    ensures FromNat(N - 1, 32) != FromNat(N + 1, 32)
  {
    Pow256Values();
    ToFromNat(N - 1, 32);
    ToFromNat(N + 1, 32);
  }

  // ---- whole blobs ----------------------------------------------------------

  function PayloadLen(blob: seq<byte>): nat
    requires |blob| >= HEADER
  {
    blob[4] as nat * 256 + blob[5] as nat
  }

  // Two bytes, big-endian.
  lemma PayloadLenReads(blob: seq<byte>)
    requires |blob| >= HEADER
    ensures PayloadLen(blob) == ToNat(blob[4..6])
  {
    assert blob[4..6] == [blob[4], blob[5]];
    assert [blob[4], blob[5]][..1] == [blob[4]] && [blob[4]][..0] == [];
    assert ToNat([blob[4]]) == blob[4] as nat;
    ToNatLast([blob[4], blob[5]]);
  }

  // The blobs returned as they are: no header, an empty or a truncated payload.
  predicate PassesThrough(blob: seq<byte>)
  {
    |blob| < HEADER || PayloadLen(blob) == 0 || |blob| < HEADER + PayloadLen(blob)
  }

  predicate Aligned(blob: seq<byte>)
    requires |blob| >= HEADER
  {
    PayloadLen(blob) % SIG == 0
  }

  function SigCount(blob: seq<byte>): nat
    requires |blob| >= HEADER
  {
    PayloadLen(blob) / SIG
  }

  // Offset of the i-th S word.
  function SOff(i: nat): nat { HEADER + i * SIG + 32 }

  function SWord(blob: seq<byte>, i: nat): Word
    requires SOff(i) + 32 <= |blob|
  {
    blob[SOff(i)..SOff(i) + 32]
  }

  // Whether position k lies in one of the first `count` S words.
  predicate InSWord(k: int, count: nat) {
    HEADER <= k < HEADER + count * SIG && (k - HEADER) % SIG >= 32
  }

  // The first `count` S words are rewritten; length, header, every R and all
  // other bytes are kept.
  ghost predicate Rewritten(before: seq<byte>, after: seq<byte>, count: nat)
  {
    && |after| == |before|
    && (forall k | 0 <= k < |before| && !InSWord(k, count) :: after[k] == before[k])
    && (forall i: nat | i < count && SOff(i) + 32 <= |before| :: SWord(after, i) == RewriteWord(SWord(before, i)))
  }

  // The loop body: the 32 bytes at sOff are cleared and overwritten.
  method RewriteInPlace(out: array<byte>, sOff: nat)
    requires sOff + 32 <= out.Length
    modifies out
    ensures out[sOff..sOff + 32] == RewriteWord(old(out[sOff..sOff + 32]))
    ensures forall k | 0 <= k < out.Length && !(sOff <= k < sOff + 32) :: out[k] == old(out[k])
  {
    var s := ToNat(out[sOff..sOff + 32]);
    if s > HALF_N {
      var diff := if s <= N then N - s else s - N;
      var padded := FromNat(diff, 32);
      forall j | 0 <= j < 32 {
        out[sOff + j] := padded[j];
      }
      assert out[sOff..sOff + 32] == padded;
      out[sOff] := SetTopBit(out[sOff]);
      assert out[sOff..sOff + 32] == padded[0 := SetTopBit(padded[0])];
    }
  }

  method ConvertVerifierBlobToEIP2098(blob: array<byte>) returns (r: Result<array<byte>, string>)
    ensures PassesThrough(blob[..]) ==> r == Ok(blob)
    ensures !PassesThrough(blob[..]) && !Aligned(blob[..]) ==> r.Err?
    ensures !PassesThrough(blob[..]) && Aligned(blob[..]) ==>
              r.Ok? && fresh(r.value) && Rewritten(blob[..], r.value[..], SigCount(blob[..]))
  {
    hide RewriteWord, InSWord;
    if blob.Length < HEADER {
      return Ok(blob);
    }
    var sigPayloadLen := blob[4] as nat * 256 + blob[5] as nat;
    if sigPayloadLen == 0 || blob.Length < HEADER + sigPayloadLen {
      return Ok(blob);
    }
    if sigPayloadLen % SIG != 0 {
      return Err("signature payload length is not a multiple of 64");
    }
    var out := new byte[blob.Length](i requires 0 <= i < blob.Length reads blob => blob[i]);
    var sigCount := sigPayloadLen / SIG;
    for i := 0 to sigCount
      invariant Rewritten(blob[..], out[..], i)
    {
      ghost var was := out[..];
      RewriteInPlace(out, SOff(i));
      StepRewrites(blob[..], was, out[..], i);
    }
    return Ok(out);
  }

  lemma StepRewrites(blob: seq<byte>, was: seq<byte>, now: seq<byte>, i: nat)
    requires SOff(i) + 32 <= |blob| == |was| == |now|
    requires Rewritten(blob, was, i)
    requires forall k | 0 <= k < |was| && !(SOff(i) <= k < SOff(i) + 32) :: now[k] == was[k]
    requires SWord(now, i) == RewriteWord(SWord(was, i))
    ensures Rewritten(blob, now, i + 1)
  {
    Offsets(i);
    assert SWord(was, i) == SWord(blob, i) by { hide RewriteWord; }
    hide SOff, InSWord, RewriteWord;
    forall j: nat | j < i + 1 && SOff(j) + 32 <= |blob|
      ensures SWord(now, j) == RewriteWord(SWord(blob, j))
    {
      if j < i { assert SWord(now, j) == SWord(was, j); }
    }
  }

  // The i-th S word lies past the ones before it, and is the next to be counted.
  lemma Offsets(i: nat)
    ensures forall j: nat | j < i :: SOff(j) + 32 <= SOff(i)
    ensures forall k | SOff(i) <= k < SOff(i) + 32 :: !InSWord(k, i) && InSWord(k, i + 1)
    ensures forall k | InSWord(k, i) :: InSWord(k, i + 1)
  {
    forall k | SOff(i) <= k < SOff(i) + 32 ensures !InSWord(k, i) && InSWord(k, i + 1) {
      ModUnique(k - HEADER, i, k - HEADER - i * SIG, SIG);
    }
  }

  // Every S word of the payload is at most the order.
  ghost predicate InRange(blob: seq<byte>)
    requires !PassesThrough(blob)
  {
    forall i: nat | i < SigCount(blob) && SOff(i) + 32 <= |blob| :: ToNat(SWord(blob, i)) <= N
  }

  // The rewrite loses nothing: two blobs with the same image are equal.
  lemma RewriteInjective(a: seq<byte>, b: seq<byte>, out: seq<byte>)
    requires !PassesThrough(a) && !PassesThrough(b) && Aligned(a) && Aligned(b)
    requires InRange(a) && InRange(b)
    requires Rewritten(a, out, SigCount(a)) && Rewritten(b, out, SigCount(b))
    ensures a == b
  {
    assert out[4] == a[4] == b[4] && out[5] == a[5] == b[5];
    forall k | 0 <= k < |a|
      ensures a[k] == b[k]
    {
      if InSWord(k, SigCount(a)) {
        var i := (k - HEADER) / SIG;
        SameWord(SWord(a, i), SWord(b, i));
        assert a[k] == SWord(a, i)[k - SOff(i)] && b[k] == SWord(b, i)[k - SOff(i)];
      }
    }
  }

  lemma SameWord(v: Word, w: Word)
    requires ToNat(v) <= N && ToNat(w) <= N
    requires RewriteWord(v) == RewriteWord(w)
    ensures v == w
  {
    UndoRecovers(v);
    UndoRecovers(w);
    FromToNat(v);
    FromToNat(w);
  }
}
