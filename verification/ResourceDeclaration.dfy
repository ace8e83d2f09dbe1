/**
 deployment/deployer.go: the Soroban resources and fee that a round declares, in
 the machine's own uint32 and int64 arithmetic.  The fee bump, a floating-point
 percentage in the program, is an arbitrary non-negative amount here.
 */
module ResourceDeclaration {
  import opened Wrappers
  import opened Words
  import Submission

  const TWO32: int := 0x1_0000_0000
  const MAX32: int := 0xFFFF_FFFF

  function AsUint32(v: int): (r: uint32)
    ensures 0 <= v < TWO32 ==> r as int == v
  {
    (v % TWO32) as uint32
  }

  datatype Resources = Resources(instructions: uint32, diskReadBytes: uint32, writeBytes: uint32)
  // Zero is an unknown cap.
  datatype Caps = Caps(instructions: uint32, diskReadBytes: uint32, writeBytes: uint32)
  datatype Declaration = Declaration(resources: Resources, fee: int64)

  function ClampToCap(v: uint32, cap: uint32): (r: uint32)
    ensures cap == 0 ==> r == v
    ensures cap > 0 ==> r <= cap && r <= v && (r == v || r == cap)
  {
    if cap == 0 || v <= cap then v else cap
  }

  // A network setting as a cap: unknown when not positive, else as much of it as
  // the resource field can hold.
  function ClampInt64ToUint32(v: int64): (r: uint32)
    ensures r == 0 <==> v <= 0
    ensures v > 0 ==> r as int <= v as int && (r as int == v as int || r as int == MAX32)
  {
    if v <= 0 then 0 else if v > 0xFFFF_FFFF then 0xFFFF_FFFF else v as uint32
  }

  // ---- the auth margin -----------------------------------------------------------------

  function Margin(simulated: int): int { simulated / 50 + 100_000 }

  // The most instructions a uint32 still holds with the margin added.
  const MARGIN_LIMIT: int := 4_210_654_211

  function WithMargin(simulated: uint32): uint32
  {
    var added := AsUint32((simulated / 50) as int + 100_000);
    AsUint32(simulated as int + added as int)
  }

  // The margin is added in full iff it fits; else the declaration wraps below
  // what was simulated.
  lemma MarginWrapsIff(simulated: uint32)
    ensures WithMargin(simulated) as int == simulated as int + Margin(simulated as int) <==>
              simulated as int <= MARGIN_LIMIT
    ensures simulated as int > MARGIN_LIMIT ==> WithMargin(simulated) < simulated
  {
    var s := simulated as int;
    assert (simulated / 50) as int == s / 50;
  }

  // ---- a declaration on the budget-exceeded retry path ------------------------------------

  function Saturated(v: int): (r: uint32)
    requires 0 <= v
    ensures r as int == if v > MAX32 then MAX32 else v
  {
    if v > MAX32 then 0xFFFF_FFFF else v as uint32
  }

  function Factor(attempt: int): int
    requires 2 <= attempt <= Submission.SUBMIT_MAX_ATTEMPTS
  {
    if attempt == 2 then 2 else 4
  }

  function Inflated(v: uint32, attempt: int, cap: uint32): uint32
    requires 2 <= attempt <= Submission.SUBMIT_MAX_ATTEMPTS
  {
    ClampToCap(Saturated(v as int * Factor(attempt)), cap)
  }

  // An int64 product that is not positive leaves the fee alone.
  function ScaledFee(fee: int64, attempt: int): int64
    requires 2 <= attempt <= Submission.SUBMIT_MAX_ATTEMPTS
  {
    var scaled := AsInt64(fee as int * Factor(attempt));
    if scaled > 0 then scaled else fee
  }

  // Go's int64 quotient truncates toward zero.
  function Truncated(p: int64, q: uint32): int64
    requires q > 0
  {
    if p >= 0 then (p as int / q as int) as int64 else (-((-(p as int)) / q as int)) as int64
  }

  function RaisedFee(fee: int64, cap: uint32, instructions: uint32): int64
    requires instructions > 0
  {
    var raised := Truncated(AsInt64(fee as int * cap as int), instructions);
    if raised > fee then raised else fee
  }

  // The instruction budget is raised to a known cap on the last attempt only.
  predicate Raises(instructions: uint32, attempt: int, caps: Caps)
  {
    attempt == Submission.SUBMIT_MAX_ATTEMPTS && caps.instructions > 0 && 0 < instructions < caps.instructions
  }

  function Metered(simulated: Resources, hasAuth: bool): uint32
  {
    if hasAuth then WithMargin(simulated.instructions) else simulated.instructions
  }

  function InflatedResources(simulated: Resources, hasAuth: bool, attempt: int, caps: Caps): Resources
    requires 2 <= attempt <= Submission.SUBMIT_MAX_ATTEMPTS
  {
    Resources(Inflated(Metered(simulated, hasAuth), attempt, caps.instructions),
              Inflated(simulated.diskReadBytes, attempt, caps.diskReadBytes),
                Inflated(simulated.writeBytes, attempt, caps.writeBytes))
  }

  // `fee` is the simulated resource fee with its bump.
  function Declared(simulated: Resources, fee: int64, hasAuth: bool, attempt: int, prevBudgetExceeded: bool,
                    caps: Caps): Declaration
    requires 1 <= attempt <= Submission.SUBMIT_MAX_ATTEMPTS
  {
    if attempt == 1 || !prevBudgetExceeded
      then Declaration(simulated.(instructions := Metered(simulated, hasAuth)), fee)
    else
      var res := InflatedResources(simulated, hasAuth, attempt, caps);
      if Raises(res.instructions, attempt, caps)
      then Declaration(res.(instructions := caps.instructions),
                       RaisedFee(ScaledFee(fee, attempt), caps.instructions, res.instructions))
      else Declaration(res, ScaledFee(fee, attempt))
  }

  method AssembleResources(simulated: Resources, resourceFee: int64, bump: int64, hasAuth: bool, attempt: int,
                           prevBudgetExceeded: bool, caps: Caps, maxResourceFee: int64)
    returns (r: Result<Declaration, string>)
    requires 1 <= attempt <= Submission.SUBMIT_MAX_ATTEMPTS
    ensures var d := Declared(simulated, AsInt64(resourceFee as int + bump as int), hasAuth, attempt,
                              prevBudgetExceeded, caps);
            if maxResourceFee > 0 && d.fee > maxResourceFee then r.Err? else r == Ok(d)
  {
    hide AsInt64, AsUint32, Truncated, Saturated, ClampToCap, WithMargin;
    var res, fee := simulated, AsInt64(resourceFee as int + bump as int);
    if hasAuth {
      res := res.(instructions := WithMargin(res.instructions));
    }
    if attempt > 1 && prevBudgetExceeded {
      var factor := 1;
      for k := 1 to attempt
        invariant factor == if k == 1 then 1 else Factor(k)
      {
        factor := factor * 2;
      }
      res := Resources(Saturated(res.instructions as int * factor), Saturated(res.diskReadBytes as int * factor),
                       Saturated(res.writeBytes as int * factor));
      var scaled := AsInt64(fee as int * factor);
      if scaled > 0 { fee := scaled; }
      res := Resources(ClampToCap(res.instructions, caps.instructions),
                       ClampToCap(res.diskReadBytes, caps.diskReadBytes),
                       ClampToCap(res.writeBytes, caps.writeBytes));
      if attempt == Submission.SUBMIT_MAX_ATTEMPTS && caps.instructions > 0 && res.instructions > 0 &&
        res.instructions < caps.instructions {
        var raised := Truncated(AsInt64(fee as int * caps.instructions as int), res.instructions);
        if raised > fee { fee := raised; }
        res := res.(instructions := caps.instructions);
      }
    }
    if maxResourceFee > 0 && fee > maxResourceFee { return Err("resource fee exceeds configured cap"); }
    return Ok(Declaration(res, fee));
  }

  // ---- what the declaration is worth ---------------------------------------------------------

  function Min(a: int, b: int): int { if a <= b then a else b }

  // Every inflated resource lies between what was simulated, or the cap if that
  // is less, and a known cap.
  lemma InflatedIsBounded(v: uint32, attempt: int, cap: uint32)
    requires 2 <= attempt <= Submission.SUBMIT_MAX_ATTEMPTS
    ensures var r := Inflated(v, attempt, cap) as int;
            && (cap > 0 ==> Min(v as int, cap as int) <= r <= cap as int)
            && v as int <= (if cap == 0 then r else Min(v as int, MAX32))
            && (cap == 0 ==> r == Min(v as int * Factor(attempt), MAX32))
  {
    assert v as int <= v as int * Factor(attempt);
  }

  // The last attempt declares exactly a known instruction cap, unless nothing at
  // all was simulated.
  lemma LastAttemptDeclaresCap(metered: uint32, caps: Caps)
    requires caps.instructions > 0
    ensures var i := Inflated(metered, Submission.SUBMIT_MAX_ATTEMPTS, caps.instructions);
            (if Raises(i, Submission.SUBMIT_MAX_ATTEMPTS, caps) then caps.instructions else i) == caps.instructions <==>
              metered > 0
  {
  }

  predicate Fits64(v: int) { -TWO63 <= v < TWO63 }

  lemma AsInt64Fits(v: int)
    requires Fits64(v)
    ensures AsInt64(v) as int == v
  {
  }

  // A product that does not fit 64 signed bits reads as a smaller number.
  lemma AsInt64Shrinks(v: int)
    requires v >= TWO63
    ensures AsInt64(v) as int <= v - TWO64
  {
    assert v / TWO64 >= 1 || v % TWO64 == v;
    assert v == v / TWO64 * TWO64 + v % TWO64;
  }

  lemma DivMonotone(a: int, b: int, q: int)
    requires q > 0 && a <= b
    ensures a / q <= b / q
  {
    var d := b / q - a / q;
    assert a == a / q * q + a % q && b == b / q * q + b % q;
    assert b - a == d * q + (b % q - a % q) by { assert d * q == b / q * q - a / q * q; }
    MulSpread(d, q);
  }

  lemma ScaledFeeFits(fee: int64, attempt: int)
    requires 2 <= attempt <= Submission.SUBMIT_MAX_ATTEMPTS && fee >= 0
    ensures Fits64(fee as int * Factor(attempt)) ==> ScaledFee(fee, attempt) as int == fee as int * Factor(attempt)
    ensures ScaledFee(fee, attempt) >= 0
  {
  }

  // The raised fee covers the fee's share of the cap, rounded down, iff the
  // product fits int64 or the share is no more than the fee already was.
  lemma RaisedFeeCoversIff(fee: int64, cap: uint32, instructions: uint32)
    requires 0 < instructions < cap && fee >= 0
    ensures var share := fee as int * cap as int / instructions as int;
            && RaisedFee(fee, cap, instructions) >= fee
            && (RaisedFee(fee, cap, instructions) as int >= share <==>
                  Fits64(fee as int * cap as int) || share == fee as int)
            && (Fits64(fee as int * cap as int) ==> RaisedFee(fee, cap, instructions) as int == share)
  {
    var p, q, f := fee as int * cap as int, instructions as int, fee as int;
    assert p >= f * q by { assert cap as int >= q; MulMonotone(f, q, cap as int); }
    assert f * q / q == f by { DivExact(f, q); }
    DivMonotone(f * q, p, q);
    if Fits64(p) {
      assert p >= 0;
      AsInt64Fits(p);
    } else {
      AsInt64Shrinks(p);
      TruncatedBelow(AsInt64(p), p, instructions);
    }
  }

  lemma MulMonotone(f: int, a: int, b: int)
    requires f >= 0 && a <= b
    ensures f * a <= f * b
  {
  }

  lemma DivExact(f: int, q: int)
    requires q > 0
    ensures f * q / q == f
  {
    ModUnique(f * q, f, 0, q);
  }

  // A quotient of a value at least one 2^64 lower is strictly lower.
  lemma TruncatedBelow(low: int64, p: int, q: uint32)
    requires q > 0 && p >= TWO63 && low as int <= p - TWO64
    ensures (Truncated(low, q) as int) < p / q as int
  {
    var d := q as int;
    OneLess(p, d);
    if low >= 0 {
      DivMonotone(low as int, p - d, d);
    } else {
      DivMonotone(d, p, d);
      DivMonotone(0, -(low as int), d);
    }
  }

  lemma OneLess(p: int, q: int)
    requires q > 0
    ensures (p - q) / q == p / q - 1
  {
    var k, m := p / q, p % q;
    assert p == k * q + m;
    assert (k - 1) * q == k * q - q;
    ModUnique(p - q, k - 1, m, q);
  }

  // A fee large enough to overflow the product goes under-declared.
  lemma RaisedFeeFallsShort()
    ensures var fee, cap, instructions: uint32 := 0x10_0000_0000, 0x2000_0000 as uint32, 0x1000_0000;
            RaisedFee(fee, cap, instructions) as int < fee as int * cap as int / instructions as int
  {
    RaisedFeeCoversIff(0x10_0000_0000, 0x2000_0000, 0x1000_0000);
  }

  // The whole declaration of a retry after an exceeded budget, when the margin
  // and the fee products fit: nothing wraps, every resource lies between what was
  // simulated (or its cap) and its cap, and the fee is scaled with the factor;
  // the third attempt declares exactly a known instruction cap, paid for in
  // proportion, rounded down.
  lemma RetryDeclaration(simulated: Resources, fee: int64, hasAuth: bool, attempt: int, caps: Caps)
    requires 2 <= attempt <= Submission.SUBMIT_MAX_ATTEMPTS && fee >= 0
    requires hasAuth ==> simulated.instructions as int <= MARGIN_LIMIT
    requires Fits64(fee as int * Factor(attempt)) && Fits64(fee as int * Factor(attempt) * caps.instructions as int)
    ensures var d := Declared(simulated, fee, hasAuth, attempt, true, caps);
            var res := InflatedResources(simulated, hasAuth, attempt, caps);
            && Bounded(simulated.instructions, d.resources.instructions, caps.instructions)
            && Bounded(simulated.diskReadBytes, d.resources.diskReadBytes, caps.diskReadBytes)
            && Bounded(simulated.writeBytes, d.resources.writeBytes, caps.writeBytes)
            && d.fee as int >= fee as int * Factor(attempt)
            && (attempt == Submission.SUBMIT_MAX_ATTEMPTS && caps.instructions > 0 && simulated.instructions > 0 ==>
                  && d.resources.instructions == caps.instructions && res.instructions > 0
                  && d.fee as int == fee as int * Factor(attempt) * caps.instructions as int / res.instructions as int)
  {
    MarginWrapsIff(simulated.instructions);
    var metered := Metered(simulated, hasAuth);
    InflatedIsBounded(metered, attempt, caps.instructions);
    InflatedIsBounded(simulated.diskReadBytes, attempt, caps.diskReadBytes);
    InflatedIsBounded(simulated.writeBytes, attempt, caps.writeBytes);
    ScaledFeeFits(fee, attempt);
    var scaled, i := ScaledFee(fee, attempt), Inflated(metered, attempt, caps.instructions);
    hide Inflated, ScaledFee, RaisedFee, WithMargin;
    assert Margin(simulated.instructions as int) >= 0;
    if Raises(i, attempt, caps) {
      RaisedFeeCoversIff(scaled, caps.instructions, i);
    } else if attempt == Submission.SUBMIT_MAX_ATTEMPTS && caps.instructions > 0 && i > 0 {
      DivExact(scaled as int, i as int);
    }
  }

  predicate Bounded(simulated: uint32, declared: uint32, cap: uint32)
  {
    && (cap > 0 ==> Min(simulated as int, cap as int) <= declared as int <= cap as int)
    && (cap == 0 ==> simulated <= declared)
  }

  // The least of a scaled value, the largest uint32 and a known cap.
  function Least(scaled: int, cap: uint32): int
  {
    Min(Min(scaled, 0xFFFF_FFFF), if cap == 0 then 0xFFFF_FFFF else cap as int)
  }

  // The simulated instructions with the auth margin, which wraps in 32 bits.
  function Base(simulated: Resources, hasAuth: bool): int
  {
    var s := simulated.instructions as int;
    if hasAuth then (s + s / 50 + 100_000) % 0x1_0000_0000 else s
  }

  // What every attempt declares, in plain numbers: after an exceeded budget attempt
  // k doubles each resource k - 1 times, up to its cap, and the third declares a
  // known instruction cap outright.
  lemma DeclarationReads(simulated: Resources, fee: int64, hasAuth: bool, attempt: int, prevBudgetExceeded: bool,
                         caps: Caps)
    requires 1 <= attempt <= 3
    ensures var d := Declared(simulated, fee, hasAuth, attempt, prevBudgetExceeded, caps).resources;
            var base := Base(simulated, hasAuth);
            if attempt == 1 || !prevBudgetExceeded then
              && d.instructions as int == base
              && d.diskReadBytes == simulated.diskReadBytes && d.writeBytes == simulated.writeBytes
            else
              && d.diskReadBytes as int == Least(simulated.diskReadBytes as int * Pow2(attempt - 1), caps.diskReadBytes)
              && d.writeBytes as int == Least(simulated.writeBytes as int * Pow2(attempt - 1), caps.writeBytes)
              && d.instructions as int ==
                   if attempt == 3 && caps.instructions > 0 && base > 0 then caps.instructions as int
                   else Least(base * Pow2(attempt - 1), caps.instructions)
  {
    MarginReads(simulated.instructions);
    if attempt > 1 && prevBudgetExceeded {
      var metered := Metered(simulated, hasAuth);
      FactorIsPow2(attempt);
      InflatedReads(metered, attempt, caps.instructions);
      InflatedReads(simulated.diskReadBytes, attempt, caps.diskReadBytes);
      InflatedReads(simulated.writeBytes, attempt, caps.writeBytes);
      hide Inflated, WithMargin, Pow2, RaisedFee, ScaledFee, Least;
      LeastReads(metered as int * Pow2(attempt - 1), caps.instructions);
    }
  }

  // And what it pays: the fee unscaled, doubled with the resources, or raised in the
  // proportion the instructions are, rounded down, as far as 64 bits hold it.
  lemma FeeReads(simulated: Resources, fee: int64, hasAuth: bool, attempt: int, prevBudgetExceeded: bool, caps: Caps)
    requires 1 <= attempt <= 3 && fee >= 0
    ensures var d := Declared(simulated, fee, hasAuth, attempt, prevBudgetExceeded, caps);
            var least := Least(Base(simulated, hasAuth) * Pow2(attempt - 1), caps.instructions);
            if attempt == 1 || !prevBudgetExceeded then d.fee == fee
            else if attempt == 3 && 0 < least < caps.instructions as int then
              Fits64(fee as int * 4 * caps.instructions as int) ==>
                d.fee as int == fee as int * 4 * caps.instructions as int / least
            else Fits64(fee as int * Pow2(attempt - 1)) ==> d.fee as int == fee as int * Pow2(attempt - 1)
  {
    if attempt > 1 && prevBudgetExceeded {
      MarginReads(simulated.instructions);
      FactorIsPow2(attempt);
      InflatedReads(Metered(simulated, hasAuth), attempt, caps.instructions);
      ScaledFeeFits(fee, attempt);
      var i := Inflated(Metered(simulated, hasAuth), attempt, caps.instructions);
      hide Inflated, WithMargin, Pow2, RaisedFee, ScaledFee, Least;
      if Raises(i, attempt, caps) {
        RaisedFeeCoversIff(ScaledFee(fee, attempt), caps.instructions, i);
        if Fits64(fee as int * 4 * caps.instructions as int) { FourFits(fee as int, caps.instructions as int); }
      }
    }
  }

  lemma FourFits(fee: int, cap: int)
    requires fee >= 0 && cap > 0 && Fits64(fee * 4 * cap)
    ensures Fits64(fee * 4)
  {
    MulMonotone(fee * 4, 1, cap);
  }

  lemma MarginReads(simulated: uint32)
    ensures WithMargin(simulated) as int == (simulated as int + simulated as int / 50 + 100_000) % 0x1_0000_0000
  {
    var s := simulated as int;
    assert (simulated / 50) as int == s / 50;
  }

  lemma FactorIsPow2(attempt: int)
    requires 2 <= attempt <= 3
    ensures Pow2(attempt - 1) == Factor(attempt) == if attempt == 2 then 2 else 4
  {
    assert Pow2(1) == 2 && Pow2(2) == 4;
  }

  lemma InflatedReads(v: uint32, attempt: int, cap: uint32)
    requires 2 <= attempt <= 3
    ensures Inflated(v, attempt, cap) as int == Least(v as int * Pow2(attempt - 1), cap)
  {
    FactorIsPow2(attempt);
  }

  lemma LeastReads(scaled: int, cap: uint32)
    ensures cap > 0 ==> Least(scaled, cap) <= cap as int
    ensures scaled > 0 <==> Least(scaled, cap) > 0
  {
  }
}
