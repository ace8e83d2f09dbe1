/**
 deployment/adapters: rate limits and the allowed finality of one pool.
 */
module PoolRateLimits {
  import opened Wrappers
  import opened Words
  import opened Xdr
  import opened ScvalInts
  import opened TokenPool
  import opened WriteRouting

  // A chain-agnostic rate limit, already scaled to token amounts; None is nil.
  datatype LimitCfg = LimitCfg(enabled: bool, capacity: Option<int>, rate: Option<int>)
  datatype BucketCfg = BucketCfg(outbound: LimitCfg, inbound: LimitCfg)
  datatype TaggedBucket = TaggedBucket(cfg: BucketCfg, fast: bool)

  const ZERO_BUCKET: BucketCfg := BucketCfg(LimitCfg(false, None, None), LimitCfg(false, None, None))
  // ---- pure conversions ---------------------------------------------------------

  function LimitToBinding(cfg: LimitCfg): Result<Limit, string>
  {
    match BigIntToU128(cfg.capacity)
    case Err(e) => Err(e)
    case Ok(capacity) =>
      match BigIntToU128(cfg.rate)
      case Err(e) => Err(e)
      case Ok(rate) => Ok(Limit(cfg.enabled, capacity, rate))
  }

  function BucketToBinding(cfg: BucketCfg): Result<Bucket, string>
  {
    match LimitToBinding(cfg.outbound)
    case Err(e) => Err(e)
    case Ok(outbound) =>
      match LimitToBinding(cfg.inbound)
      case Err(e) => Err(e)
      case Ok(inbound) => Ok(Bucket(outbound, inbound))
  }

  function LimitFromChain(l: Limit): LimitCfg
  {
    LimitCfg(l.enabled, Some(U128ToBigInt(l.capacity)), Some(U128ToBigInt(l.rate)))
  }

  function BucketFromChain(b: Bucket): BucketCfg { BucketCfg(LimitFromChain(b.outbound), LimitFromChain(b.inbound)) }

  // A bucket read from the chain is written back unchanged.
  lemma LiveBucketSurvives(b: Bucket)
    ensures BucketToBinding(BucketFromChain(b)) == Ok(b)
  {
    U128WordsRoundTrip(b.outbound.capacity); U128WordsRoundTrip(b.outbound.rate);
    U128WordsRoundTrip(b.inbound.capacity); U128WordsRoundTrip(b.inbound.rate);
  }

  // A stored limit is sane iff its rate is at most its capacity, as numbers, or it
  // is off and both are zero.
  lemma SaneReads(l: Limit)
    ensures SaneLimit(l) <==>
              if l.enabled then U128ToBigInt(l.rate) <= U128ToBigInt(l.capacity)
              else U128ToBigInt(l.rate) == 0 && U128ToBigInt(l.capacity) == 0
  {
    U128Value(l.rate);
    U128Value(l.capacity);
    hide U128ToBigInt;
  }

  // ---- rate limits and the finality word ------------------------------------------

  function RateOps(caller: Address, sel: Selector, buckets: seq<TaggedBucket>): seq<Op>
    requires forall b | b in buckets :: BucketToBinding(b.cfg).Ok?
  {
    if buckets == [] then []
    else
      var last := buckets[|buckets| - 1];
      RateOps(caller, sel, buckets[..|buckets| - 1])
      + [OnLane(sel, SetRateLimit(caller, BucketToBinding(last.cfg).value, last.fast))]
  }

  // The buckets written one after the other: refused on a missing lane or an insane limit.
  function LimitsApplied(lane: Option<Lane>, buckets: seq<TaggedBucket>): Option<Option<Lane>>
    requires forall b | b in buckets :: BucketToBinding(b.cfg).Ok?
  {
    if buckets == [] then Some(lane)
    else
      match LimitsApplied(lane, buckets[..|buckets| - 1])
      case Some(Some(l)) =>
        var last := buckets[|buckets| - 1];
        var b := BucketToBinding(last.cfg).value;
        if Sane(b) then Some(Some(WithLimits(l, b, last.fast))) else None
      case _ => None
  }

  predicate MaySetLimits(r: Roles, caller: Address) { caller == r.owner || Some(caller) == r.rateAdmin }

  lemma {:induction false} RateOpsApply(r: Roles, caller: Address, lane: Option<Lane>, sel: Selector,
                                        buckets: seq<TaggedBucket>)
    requires MaySetLimits(r, caller)
    requires forall b | b in buckets :: BucketToBinding(b.cfg).Ok?
    ensures RunLane(r, caller, lane, RateOps(caller, sel, buckets), sel) == LimitsApplied(lane, buckets)
    ensures forall op | op in RateOps(caller, sel, buckets) :: op.OnLane? && op.sel == sel && op.write.SetRateLimit?
  {
    if buckets != [] {
      var init := buckets[..|buckets| - 1];
      var last := buckets[|buckets| - 1];
      var op := OnLane(sel, SetRateLimit(caller, BucketToBinding(last.cfg).value, last.fast));
      RateOpsApply(r, caller, lane, sel, init);
      RunLaneConcat(r, caller, lane, RateOps(caller, sel, init), [op], sel);
      assert RateOps(caller, sel, buckets) == RateOps(caller, sel, init) + [op];
      var mid := LimitsApplied(lane, init);
      if mid.Some? { OneLaneWrite(r, caller, mid.value, sel, op.write); }
      hide RunLane, RateOps, BucketToBinding, Sane;
    }
  }

  lemma OneLaneWrite(r: Roles, invoker: Address, lane: Option<Lane>, sel: Selector, write: LaneWrite)
    ensures RunLane(r, invoker, lane, [OnLane(sel, write)], sel) ==
            match LaneStep(r, invoker, lane, write) case None => None case Some(l) => Some(Some(l))
  {
    assert [OnLane(sel, write)][1..] == [];
  }

  function OptionalOp(op: Option<Op>): seq<Op> { if op.Some? then [op.value] else [] }

  // Zero asks for no change.
  function WantedFinality(w: World, finality: uint32): uint32 { if finality != 0 then finality else w.finality }

  // The finality word ends as wanted once the timelock has run the queue.
  ghost predicate FinalityDone(after: World, timelock: Option<Address>, want: uint32, q: seq<Op>)
  {
    && RunFinality(after.roles, Or(timelock, ""), after.finality, q) == Some(want)
    && (q != [] ==> timelock.Some?)
  }

  // applyPoolAllowedFinality: an equal value is skipped, else routed by the owner.
  method ApplyPoolAllowedFinality(chain: Chain, deployer: Address, timelock: Option<Address>, want: uint32)
    returns (r: Result<(bool, Option<Op>), string>)
    modifies chain
    ensures chain.world == old(chain.world).(finality := chain.world.finality)
    ensures old(chain.log) <= chain.log
    ensures forall i | |old(chain.log)| <= i < |chain.log| :: OnlyLimits(chain.log[i].1)
    ensures r.Ok? ==> FinalityDone(chain.world, timelock, want, OptionalOp(r.value.1))
    ensures r.Ok? ==> forall op | op in OptionalOp(r.value.1) :: op == SetAllowedFinality(want)
    ensures r.Ok? <==> old(chain.world).finality == want || Routable(old(chain.world).roles.owner, deployer, timelock)
  {
    if chain.world.finality == want {
      return Ok((false, None));
    }
    var owner := chain.world.roles.owner;
    if owner == deployer {
      var ok := chain.Invoke(deployer, SetAllowedFinality(want));
      if !ok { return Err("set allowed finality failed"); }
      return Ok((true, None));
    } else if timelock == Some(owner) {
      assert [SetAllowedFinality(want)][1..] == [];
      return Ok((false, Some(SetAllowedFinality(want))));
    } else {
      return Err("owner is neither deployer nor timelock");
    }
  }

  // The identity the rate-limit writes go through; None skips them.  The deployer
  // comes first, except behind a prerequisite that is itself only queued.
  function RateCaller(r: Roles, deployer: Address, timelock: Option<Address>, prerequisiteStaged: bool, skip: bool)
    : (c: Result<Option<Address>, string>)
    ensures c.Ok? && c.value.Some? ==> MaySetLimits(r, c.value.value)
    ensures c.Ok? && c.value.Some? ==> c.value == Some(deployer) || c.value == timelock
    ensures prerequisiteStaged ==> if timelock == Some(r.owner) then c == Ok(timelock) else c.Err?
    ensures !prerequisiteStaged && MaySetLimits(r, deployer) ==> c == Ok(Some(deployer))
    ensures !prerequisiteStaged && !MaySetLimits(r, deployer) ==>
              if timelock.Some? && MaySetLimits(r, timelock.value) then c == Ok(timelock)
              else if skip then c == Ok(None)
              else c.Err?
  {
    var tl := Or(timelock, "");
    if prerequisiteStaged then
      if timelock != Some(r.owner) then Err("staged prerequisite on a pool the timelock does not own") else Ok(timelock)
    else if r.owner == deployer || r.rateAdmin == Some(deployer) then Ok(Some(deployer))
    else if timelock.Some? && (r.owner == tl || r.rateAdmin == Some(tl)) then Ok(timelock)
    else if skip then Ok(None)
    else Err("owner and rate-limit admin are neither deployer nor timelock")
  }

  predicate AllBind(buckets: seq<TaggedBucket>) { forall b | b in buckets :: BucketToBinding(b.cfg).Ok? }

  lemma {:induction false} RateOpsConcat(caller: Address, sel: Selector, a: seq<TaggedBucket>, b: seq<TaggedBucket>)
    requires AllBind(a) && AllBind(b)
    ensures AllBind(a + b) && RateOps(caller, sel, a + b) == RateOps(caller, sel, a) + RateOps(caller, sel, b)
    decreases |b|
  {
    if b == [] {
      assert a + b == a;
    } else {
      assert (a + b)[..|a + b| - 1] == a + b[..|b| - 1];
      RateOpsConcat(caller, sel, a, b[..|b| - 1]);
    }
  }

  // A refused bucket refuses the whole list.
  lemma RefusedBucket(w: World, caller: Address, sel: Selector, buckets: seq<TaggedBucket>, i: nat)
    requires i < |buckets| && AllBind(buckets)
    requires Run(w, caller, RateOps(caller, sel, buckets[..i + 1])).None?
    ensures Run(w, caller, RateOps(caller, sel, buckets)).None?
  {
    assert buckets == buckets[..i + 1] + buckets[i + 1..];
    RateOpsConcat(caller, sel, buckets[..i + 1], buckets[i + 1..]);
    RunConcat(w, caller, RateOps(caller, sel, buckets[..i + 1]), RateOps(caller, sel, buckets[i + 1..]));
  }

  // The bucket loop of setTokenPoolRateLimits: executed one by one, or collected.
  method WriteBuckets(chain: Chain, caller: Address, direct: bool, sel: Selector, buckets: seq<TaggedBucket>)
    returns (r: Result<seq<Op>, string>)
    modifies chain
    ensures old(chain.log) <= chain.log
    ensures forall i | |old(chain.log)| <= i < |chain.log| :: OnlyLimits(chain.log[i].1)
    ensures r.Ok? <==>
              AllBind(buckets) && (direct ==> Run(old(chain.world), caller, RateOps(caller, sel, buckets)).Some?)
    ensures r.Ok? && direct ==>
              r.value == [] && Run(old(chain.world), caller, RateOps(caller, sel, buckets)) == Some(chain.world)
    ensures r.Ok? && !direct ==> r.value == RateOps(caller, sel, buckets) && chain.world == old(chain.world)
  {
    var writes: seq<Op> := [];
    ghost var ops: seq<Op> := [];
    for i := 0 to |buckets|
      invariant forall b | b in buckets[..i] :: BucketToBinding(b.cfg).Ok?
      invariant ops == RateOps(caller, sel, buckets[..i])
      invariant direct ==> writes == [] && Run(old(chain.world), caller, ops) == Some(chain.world)
      invariant !direct ==> chain.world == old(chain.world) && writes == ops
      invariant old(chain.log) <= chain.log
      invariant forall k | |old(chain.log)| <= k < |chain.log| :: OnlyLimits(chain.log[k].1)
    {
      assert buckets[..i + 1][..i] == buckets[..i];
      var b := BucketToBinding(buckets[i].cfg);
      if b.Err? { return Err(b.error); }
      var op := OnLane(sel, SetRateLimit(caller, b.value, buckets[i].fast));
      if direct {
        RunSnoc(old(chain.world), caller, ops, op);
        var ok := chain.Invoke(caller, op);
        if !ok {
          if AllBind(buckets) { RefusedBucket(old(chain.world), caller, sel, buckets, i); }
          return Err("set rate limit config failed");
        }
      } else {
        writes := writes + [op];
      }
      ops := ops + [op];
    }
    assert buckets[..|buckets|] == buckets;
    return Ok(writes);
  }

  lemma RunSnoc(w: World, invoker: Address, ops: seq<Op>, op: Op)
    requires Run(w, invoker, ops).Some?
    ensures Run(w, invoker, ops + [op]) == Step(Run(w, invoker, ops).value, invoker, op)
  {
    RunConcat(w, invoker, ops, [op]);
  }

  // What setTokenPoolRateLimits did to one lane and to the finality word, and
  // what the queue it returns will still do when the timelock runs it.
  ghost predicate LimitsDone(before: World, after: World, timelock: Option<Address>, direct: bool, sel: Selector,
                             buckets: seq<TaggedBucket>, q: seq<Op>)
  {
    && after == before.(finality := after.finality, lanes := after.lanes)
    && (forall s | s != sel :: LaneAt(after, s) == LaneAt(before, s))
    && (forall op | op in q :: OnlyLimits(op) && (op.OnLane? ==> op.sel == sel && !direct))
    && (forall b | b in buckets :: BucketToBinding(b.cfg).Ok?)
    && (direct ==> Some(LaneAt(after, sel)) == LimitsApplied(LaneAt(before, sel), buckets))
    && (!direct ==> after.lanes == before.lanes && timelock.Some? &&
                    forall l :: RunLane(after.roles, timelock.value, l, q, sel) == LimitsApplied(l, buckets))
  }

  // When setTokenPoolRateLimits succeeds: an identity is found or the skip asked
  // for, the finality word is right or routable, the buckets fit, and those the
  // deployer writes itself are accepted.
  predicate LimitsRun(w: World, deployer: Address, timelock: Option<Address>, prerequisiteStaged: bool, skip: bool,
                      sel: Selector, buckets: seq<TaggedBucket>, finality: uint32)
  {
    var c := RateCaller(w.roles, deployer, timelock, prerequisiteStaged, skip);
    c.Ok? && (c.value.Some? ==>
      && (finality != 0 ==> w.finality == finality || Routable(w.roles.owner, deployer, timelock))
      && AllBind(buckets)
      && (c.value.value == deployer ==> LimitsApplied(LaneAt(w, sel), buckets).Some?))
  }

  // The finality word goes first, when one is asked for.
  method FinalityFirst(chain: Chain, deployer: Address, timelock: Option<Address>, finality: uint32)
    returns (r: Result<(bool, seq<Op>), string>)
    modifies chain
    ensures chain.world == old(chain.world).(finality := chain.world.finality)
    ensures old(chain.log) <= chain.log
    ensures forall i | |old(chain.log)| <= i < |chain.log| :: OnlyLimits(chain.log[i].1)
    ensures r.Ok? <==> (finality != 0 ==>
              old(chain.world).finality == finality || Routable(old(chain.world).roles.owner, deployer, timelock))
    ensures r.Ok? ==> FinalityDone(chain.world, timelock, WantedFinality(old(chain.world), finality), r.value.1)
    ensures r.Ok? ==> forall op | op in r.value.1 :: op.SetAllowedFinality?
    ensures r.Ok? && finality == 0 ==> r.value.1 == [] && chain.world == old(chain.world)
  {
    if finality == 0 { return Ok((false, [])); }
    var f := ApplyPoolAllowedFinality(chain, deployer, timelock, finality);
    if f.Err? { return Err(f.error); }
    return Ok((f.value.0, OptionalOp(f.value.1)));
  }

  // setTokenPoolRateLimits.  The ghost result says whether the buckets went direct.
  method SetTokenPoolRateLimits(chain: Chain, deployer: Address, timelock: Option<Address>,
                                prerequisiteStaged: bool, skipIfMissingPermissions: bool, sel: Selector,
                                buckets: seq<TaggedBucket>, finality: uint32)
    returns (r: Result<seq<BatchOp>, string>, ghost direct: bool)
    requires timelock != Some(deployer)
    modifies chain
    ensures old(chain.log) <= chain.log
    ensures forall i | |old(chain.log)| <= i < |chain.log| :: OnlyLimits(chain.log[i].1)
    ensures prerequisiteStaged ==> !direct
    ensures r.Ok? <==> LimitsRun(old(chain.world), deployer, timelock, prerequisiteStaged, skipIfMissingPermissions,
                                 sel, buckets, finality)
    ensures var c := RateCaller(old(chain.world).roles, deployer, timelock, prerequisiteStaged,
                                skipIfMissingPermissions);
            r.Ok? ==>
              if c.value.None? then r.value == [] && chain.world == old(chain.world) && chain.log == old(chain.log)
              else
                && (direct <==> c.value.value == deployer)
                && LimitsDone(old(chain.world), chain.world, timelock, direct, sel, buckets, Queued(r.value))
                && FinalityDone(chain.world, timelock, WantedFinality(old(chain.world), finality), Queued(r.value))
    ensures r.Ok? && finality == 0 ==>
              AvoidsFinality(Queued(r.value)) && chain.world.finality == old(chain.world.finality)
  {
    hide LimitsDone, FinalityDone, RateOps, LimitsApplied, Run, AllBind, Routable, RateCaller;
    var c := RateCaller(chain.world.roles, deployer, timelock, prerequisiteStaged, skipIfMissingPermissions);
    direct := false;
    if c.Err? { return Err(c.error), direct; }
    if c.value.None? { return Ok([]), direct; }
    var caller := c.value.value;
    var isDirect := caller == deployer;
    direct := isDirect;
    var f := FinalityFirst(chain, deployer, timelock, finality);
    if f.Err? { return Err(f.error), direct; }
    var executed, writes := f.value.0, f.value.1;
    ghost var mid, finalityWrites := chain.world, writes;
    var rl := WriteBuckets(chain, caller, isDirect, sel, buckets);
    if AllBind(buckets) { DirectBuckets(mid, caller, sel, buckets); }
    if rl.Err? { return Err(rl.error), direct; }
    executed := executed || (isDirect && |buckets| > 0);
    writes := writes + rl.value;
    LimitsEffect(old(chain.world), mid, chain.world, caller, timelock, sel, buckets, finalityWrites, writes, isDirect);
    return Ok(Batches(executed, writes)), direct;
  }

  lemma DirectBuckets(w: World, caller: Address, sel: Selector, buckets: seq<TaggedBucket>)
    requires MaySetLimits(w.roles, caller) && AllBind(buckets)
    ensures Run(w, caller, RateOps(caller, sel, buckets)).Some? <==> LimitsApplied(LaneAt(w, sel), buckets).Some?
  {
    RateOpsApply(w.roles, caller, LaneAt(w, sel), sel, buckets);
    RunOnlyLane(w, caller, RateOps(caller, sel, buckets), sel);
  }

  lemma LimitsEffect(before: World, mid: World, after: World, caller: Address, timelock: Option<Address>,
                     sel: Selector, buckets: seq<TaggedBucket>, finalityWrites: seq<Op>, writes: seq<Op>,
                     direct: bool)
    requires MaySetLimits(before.roles, caller)
    requires mid == before.(finality := mid.finality)
    requires AllBind(buckets)
    requires forall op | op in finalityWrites :: op.SetAllowedFinality?
    requires direct ==> writes == finalityWrites && Run(mid, caller, RateOps(caller, sel, buckets)) == Some(after)
    requires !direct ==>
               after == mid && writes == finalityWrites + RateOps(caller, sel, buckets) && timelock == Some(caller)
    ensures LimitsDone(before, after, timelock, direct, sel, buckets, writes)
    ensures after.finality == mid.finality
    ensures finalityWrites == [] ==> AvoidsFinality(writes)
    ensures forall want :: FinalityDone(mid, timelock, want, finalityWrites) ==>
              FinalityDone(after, timelock, want, writes)
  {
    var ops := RateOps(caller, sel, buckets);
    RateOpsApply(mid.roles, caller, LaneAt(mid, sel), sel, buckets);
    if direct {
      RunOnlyLane(mid, caller, ops, sel);
    } else {
      forall l ensures RunLane(mid.roles, caller, l, writes, sel) == LimitsApplied(l, buckets) {
        RateOpsApply(mid.roles, caller, l, sel, buckets);
        RunLaneConcat(mid.roles, caller, l, finalityWrites, ops, sel);
      }
      forall want | FinalityDone(mid, timelock, want, finalityWrites)
        ensures FinalityDone(after, timelock, want, writes)
      {
        RunFinalityConcat(mid.roles, caller, mid.finality, finalityWrites, ops);
        RunFinalityConcat(mid.roles, caller, want, ops, []);
      }
    }
  }

  lemma {:induction false} RunOnlyLane(w: World, invoker: Address, ops: seq<Op>, sel: Selector)
    requires forall op | op in ops :: op.OnLane? && op.sel == sel
    ensures Run(w, invoker, ops).Some? <==> RunLane(w.roles, invoker, LaneAt(w, sel), ops, sel).Some?
    ensures Run(w, invoker, ops).Some? ==>
            var n := Run(w, invoker, ops).value;
            && n == w.(lanes := n.lanes)
            && (forall s | s != sel :: LaneAt(n, s) == LaneAt(w, s))
            && RunLane(w.roles, invoker, LaneAt(w, sel), ops, sel) == Some(LaneAt(n, sel))
    decreases ops
  {
    if ops != [] && Step(w, invoker, ops[0]).Some? {
      RunOnlyLane(Step(w, invoker, ops[0]).value, invoker, ops[1..], sel);
    }
  }
}
