/**
 Remote token and pool addresses on the wire (deployment/adapters): the remote
 family's native form, and the 32-byte form zero-padded on the left.  `native`
 is the family's address length, None when the family cannot be resolved.
 */
module WireBytes {
  import opened Wrappers
  import opened Words

  type Bytes = seq<byte>

  const WIRE: nat := 32

  function Zeros(n: nat): Bytes { seq(n, _ => 0) }

  // common.LeftPadBytes(b, 32): a slice that is already long enough is kept.
  function LeftPad(b: Bytes): Bytes
  {
    if |b| >= WIRE then b else Zeros(WIRE - |b|) + b
  }

  // bytes.Trim(b, "\x00") == nil for a non-empty slice.
  predicate AllZero(b: Bytes) { forall i | 0 <= i < |b| :: b[i] == 0 }

  function RemoteTokenWireBytes(native: Option<nat>, token: Bytes): Result<Bytes, string>
  {
    if |token| == 0 then Err("empty remote token address")
    else if native.None? then Err("unresolved chain family")
    else
      var n := native.value;
      if |token| == n then Ok(token)
      else if |token| == WIRE && n < WIRE && AllZero(token[..WIRE - n]) then Ok(token[WIRE - n..])
      else Err("wrong remote token address length")
  }

  function RemotePoolWireBytes(native: Option<nat>, pool: Bytes): Result<Bytes, string>
  {
    if |pool| == 0 then Err("empty remote pool address")
    else if native.None? then Err("unresolved chain family")
    else
      var n := native.value;
      if |pool| == n then Ok(LeftPad(pool))
      else if |pool| == WIRE && n < WIRE && AllZero(pool[..WIRE - n]) then Ok(pool)
      else Err("wrong remote pool address length")
  }

  // The stored entries equal to the wanted address in either form, in order.
  function MatchingEntries(stored: seq<Bytes>, want: Bytes): seq<Bytes>
  {
    if stored == [] then []
    else (if LeftPad(stored[0]) == LeftPad(want) then [stored[0]] else []) + MatchingEntries(stored[1..], want)
  }

  lemma {:induction false} MatchingMembers(stored: seq<Bytes>, want: Bytes)
    ensures forall e :: e in MatchingEntries(stored, want) <==> e in stored && LeftPad(e) == LeftPad(want)
  {
    if stored != [] {
      MatchingMembers(stored[1..], want);
    }
  }

  // Trimming undoes padding, padding undoes trimming, and the accepted inputs
  // are exactly the two forms of one native address.
  lemma TokenFormsInverse(n: nat, token: Bytes)
    requires 0 < n <= WIRE
    ensures |token| == n ==> RemoteTokenWireBytes(Some(n), LeftPad(token)) == Ok(token)
    ensures RemoteTokenWireBytes(Some(n), token).Ok? <==>
              exists t: Bytes :: |t| == n && (token == t || token == LeftPad(t))
    ensures RemoteTokenWireBytes(Some(n), token).Ok? ==>
              var t := RemoteTokenWireBytes(Some(n), token).value;
              |t| == n && LeftPad(t) == LeftPad(token) && RemoteTokenWireBytes(Some(n), t) == Ok(t)
  {
    if |token| == n {
      assert LeftPad(token)[WIRE - n..] == token;
    }
    if RemoteTokenWireBytes(Some(n), token).Ok? {
      var t := RemoteTokenWireBytes(Some(n), token).value;
      assert |t| == n;
      if token != t {
        assert Zeros(WIRE - n) + t == token;
      }
    }
  }

  // Padding keeps the address at the right end and puts zeros before it.
  lemma PadReads(b: Bytes)
    ensures |b| >= WIRE ==> LeftPad(b) == b
    ensures |b| < WIRE ==>
              && |LeftPad(b)| == WIRE && LeftPad(b)[WIRE - |b|..] == b
              && forall i | 0 <= i < WIRE - |b| :: LeftPad(b)[i] == 0
  {
  }

  // A pool address is accepted in the native form and in the padded one only.
  lemma PoolAcceptedIff(n: nat, pool: Bytes)
    requires 0 < n <= WIRE
    ensures RemotePoolWireBytes(Some(n), pool).Ok? <==>
              exists p: Bytes :: |p| == n && (pool == p || pool == LeftPad(p))
  {
    if |pool| == WIRE && n < WIRE && AllZero(pool[..WIRE - n]) {
      assert Zeros(WIRE - n) + pool[WIRE - n..] == pool;
      assert pool == LeftPad(pool[WIRE - n..]);
    }
    forall p: Bytes | |p| == n && pool == LeftPad(p) ensures RemotePoolWireBytes(Some(n), pool).Ok? { PadReads(p); }
  }

  // The stored pool form is the padded one, whichever form came in.
  lemma PoolFormPadded(n: nat, pool: Bytes)
    ensures RemotePoolWireBytes(Some(n), pool).Ok? ==>
              RemotePoolWireBytes(Some(n), pool) == Ok(LeftPad(pool)) && pool != []
    ensures 0 < n <= WIRE && |pool| == n ==> RemotePoolWireBytes(Some(n), LeftPad(pool)) == Ok(LeftPad(pool))
    ensures LeftPad(LeftPad(pool)) == LeftPad(pool)
  {
  }
}
