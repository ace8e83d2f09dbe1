/**
 deployment/adapters: the lane of one remote chain, created, replaced or updated.
 */
module RemoteLanes {
  import opened Wrappers
  import opened Words
  import opened Xdr
  import opened ScvalInts
  import opened WireBytes
  import opened TokenPool
  import opened WriteRouting
  import opened PoolRateLimits
  import opened QueuedWrites

  type FamilyLength = n: nat | n > 0 witness 20

  // One entry of the remote-chain map.  `native` is the remote family's address length.
  datatype Remote = Remote(
    sel: Selector, native: Option<FamilyLength>, token: Bytes, pool: Bytes,
    standardOut: Option<LimitCfg>, standardIn: Option<LimitCfg>,
    fastOut: Option<LimitCfg>, fastIn: Option<LimitCfg>,
    outboundCcvs: seq<Address>, inboundCcvs: seq<Address>,
    thresholdOut: seq<Address>, thresholdIn: seq<Address>,
    transferFeeConfig: bool)

  // resolveRemoteRateLimitBuckets: each kind paired, or an error.
  function ResolveBuckets(rc: Remote): Result<(Option<BucketCfg>, Option<BucketCfg>), string>
  {
    if rc.standardOut.Some? != rc.standardIn.Some? then Err("unpaired default limits")
    else if rc.fastOut.Some? != rc.fastIn.Some? then Err("unpaired fast-finality limits")
    else Ok((
      if rc.standardOut.Some? then Some(BucketCfg(rc.standardOut.value, rc.standardIn.value)) else None,
      if rc.fastOut.Some? then Some(BucketCfg(rc.fastOut.value, rc.fastIn.value)) else None))
  }

  // poolChainUpdate, as the lane write it is sent in.
  function PoolChainUpdate(rc: Remote, bucket: BucketCfg, replace: bool): Result<LaneWrite, string>
  {
    match BucketToBinding(bucket)
    case Err(e) => Err(e)
    case Ok(b) =>
      match RemoteTokenWireBytes(rc.native, rc.token)
      case Err(e) => Err(e)
      case Ok(token) =>
        match RemotePoolWireBytes(rc.native, rc.pool)
        case Err(e) => Err(e)
        case Ok(pool) => Ok(ApplyChainUpdates(token, [pool], b, replace))
  }

  // ---- what a finished configuration looks like --------------------------------

  function Supplied(out: Option<LimitCfg>, inb: Option<LimitCfg>): Option<Bucket>
  {
    if out.None? || inb.None? then None
    else match BucketToBinding(BucketCfg(out.value, inb.value)) case Ok(b) => Some(b) case Err(_) => None
  }

  predicate SuppliedSane(rc: Remote)
  {
    && (Supplied(rc.standardOut, rc.standardIn).Some? ==> Sane(Supplied(rc.standardOut, rc.standardIn).value))
    && (Supplied(rc.fastOut, rc.fastIn).Some? ==> Sane(Supplied(rc.fastOut, rc.fastIn).value))
  }

  // The native token; the lane's pools, kept while the token stands; each limit
  // supplied, else as it was, else unlimited.
  function WantLane(lane: Option<Lane>, rc: Remote): Lane
  {
    var token := match RemoteTokenWireBytes(rc.native, rc.token) case Ok(t) => t case Err(_) => [];
    var pools :=
      if lane.None? || lane.value.token != token then [LeftPad(rc.pool)]
      else if rc.pool == [] || MatchingEntries(lane.value.pools, rc.pool) != [] then lane.value.pools
      else lane.value.pools + [LeftPad(rc.pool)];
    var was := if lane.Some? then (lane.value.standard, lane.value.fast) else (UNLIMITED, UNLIMITED);
    Lane(token, pools, Or(Supplied(rc.standardOut, rc.standardIn), was.0), Or(Supplied(rc.fastOut, rc.fastIn), was.1))
  }

  predicate Bindable(rc: Remote)
  {
    && (rc.standardOut.Some? <==> rc.standardIn.Some?) && (rc.fastOut.Some? <==> rc.fastIn.Some?)
    && (rc.standardOut.Some? ==> LimitToBinding(rc.standardOut.value).Ok? && LimitToBinding(rc.standardIn.value).Ok?)
    && (rc.fastOut.Some? ==> LimitToBinding(rc.fastOut.value).Ok? && LimitToBinding(rc.fastIn.value).Ok?)
  }

  // What a successful run has checked: the limits, the token always, the pool when
  // it is given, and it must be given for a lane that is created or replaced.
  predicate Checked(lane: Option<Lane>, rc: Remote)
  {
    && Bindable(rc)
    && RemoteTokenWireBytes(rc.native, rc.token).Ok?
    && (rc.pool != [] ==> RemotePoolWireBytes(rc.native, rc.pool).Ok?)
    && (lane.None? || RemoteTokenWireBytes(rc.native, rc.token) != Ok(lane.value.token) ==> rc.pool != [])
  }

  // Nothing left to write on the lane but its supplied limits.
  predicate LaneSettled(lane: Option<Lane>, rc: Remote)
  {
    && lane.Some?
    && RemoteTokenWireBytes(rc.native, rc.token) == Ok(lane.value.token)
    && (rc.pool != [] ==> MatchingEntries(lane.value.pools, rc.pool) != [])
  }

  // ---- one remote chain -------------------------------------------------------------

  // Where a lane ends: as wanted, or refused for an insane supplied limit.
  function LaneGoal(lane: Option<Lane>, rc: Remote): Option<Option<Lane>>
  {
    if SuppliedSane(rc) then Some(Some(WantLane(lane, rc))) else None
  }

  ghost predicate LaneDone(before: World, after: World, timelock: Option<Address>, rc: Remote, q: seq<Op>)
  {
    && Checked(LaneAt(before, rc.sel), rc)
    && LaneQueued(before, after, timelock, rc.sel, q, LaneGoal(LaneAt(before, rc.sel), rc))
  }

  function Tagged(cfg: Option<BucketCfg>, fast: bool): seq<TaggedBucket>
  {
    if cfg.Some? then [TaggedBucket(cfg.value, fast)] else []
  }

  // A routed lane write followed by rate limits, seen from the lane.
  ghost predicate WriteThenLimits(before: World, after: World, timelock: Option<Address>, sel: Selector,
                                  write: LaneWrite, buckets: seq<TaggedBucket>, q: seq<Op>)
  {
    && after == before.(lanes := after.lanes)
    && (forall s | s != sel :: LaneAt(after, s) == LaneAt(before, s))
    && (forall op | op in q :: op.OnLane? && op.sel == sel)
    && (q != [] ==> timelock.Some?)
    && (forall b | b in buckets :: BucketToBinding(b.cfg).Ok?)
    && RunLane(after.roles, Or(timelock, ""), LaneAt(after, sel), q, sel) ==
       match LaneStep(before.roles, before.roles.owner, LaneAt(before, sel), write)
       case None => None
       case Some(l) => LimitsApplied(Some(l), buckets)
  }

  // When the pair of writes succeeds: both fit, and the deployer's are accepted.
  predicate WriteRuns(w: World, deployer: Address, timelock: Option<Address>, sel: Selector, write: LaneWrite,
                      fast: Option<BucketCfg>)
  {
    var l := LaneStep(w.roles, w.roles.owner, LaneAt(w, sel), write);
    && (fast.Some? ==> BucketToBinding(fast.value).Ok?)
    && Routable(w.roles.owner, deployer, timelock)
    && (w.roles.owner == deployer ==> l.Some? && LimitsApplied(Some(l.value), Tagged(fast, true)).Some?)
  }

  // The lane write goes first; a fast-finality bucket follows it, staged when the
  // lane write itself was only queued.
  method WriteLaneThenFast(router: Router, sel: Selector, write: LaneWrite, fast: Option<BucketCfg>)
    returns (r: Result<seq<BatchOp>, string>, ghost pw: seq<Op>)
    requires router.timelock != Some(router.deployer) && router.owner == router.chain.world.roles.owner
    modifies router, router.chain
    ensures r.Ok? ==> router.writes == old(router.writes) + pw
    ensures r.Ok? ==> WriteThenLimits(old(router.chain.world), router.chain.world, router.timelock, sel, write,
                                      Tagged(fast, true), pw + Queued(r.value))
    ensures r.Ok? <==> WriteRuns(old(router.chain.world), router.deployer, router.timelock, sel, write, fast)
  {
    hide WriteThenLimits, LimitsDone, Sane;
    pw := [];
    var chain := router.chain;
    ghost var before := chain.world;
    var routed := router.Route(router.owner, OnLane(sel, write));
    if routed.Err? { return Err(routed.error), pw; }
    if !routed.value { pw := [OnLane(sel, write)]; }
    ghost var mid := chain.world;
    var out: seq<BatchOp> := [];
    ghost var direct := true;
    if fast.Some? {
      var rl;
      rl, direct := SetTokenPoolRateLimits(chain, router.deployer, router.timelock, !routed.value, false, sel,
                                           [TaggedBucket(fast.value, true)], 0);
      if rl.Err? { return Err(rl.error), pw; }
      out := rl.value;
    }
    LaneThenLimits(before, mid, chain.world, router.timelock, sel, write, Tagged(fast, true), pw, Queued(out), direct);
    return Ok(out), pw;
  }

  lemma LaneThenLimits(before: World, mid: World, after: World, timelock: Option<Address>, sel: Selector,
                       write: LaneWrite, buckets: seq<TaggedBucket>, pw: seq<Op>, rw: seq<Op>, direct: bool)
    requires pw == [] ==> Step(before, before.roles.owner, OnLane(sel, write)) == Some(mid)
    requires pw != [] ==> pw == [OnLane(sel, write)] && mid == before && timelock == Some(before.roles.owner)
    requires buckets == [] ==> after == mid && rw == []
    requires pw != [] && buckets != [] ==> !direct
    requires buckets != [] ==>
               LimitsDone(mid, after, timelock, direct, sel, buckets, rw) && AvoidsFinality(rw) &&
               mid.finality == after.finality
    requires rw != [] ==> timelock.Some?
    ensures WriteThenLimits(before, after, timelock, sel, write, buckets, pw + rw)
  {
    var tl := Or(timelock, "");
    RunLaneConcat(after.roles, tl, LaneAt(after, sel), pw, rw, sel);
    if pw != [] {
      assert pw[1..] == [];
      var s := LaneStep(before.roles, tl, LaneAt(before, sel), write);
      assert RunLane(after.roles, tl, LaneAt(before, sel), pw, sel) == if s.None? then None else Some(Some(s.value));
    } else {
      RunLaneConcat(after.roles, tl, LaneAt(after, sel), rw, [], sel);
    }
  }

  function NonNil(bucket: Option<BucketCfg>): BucketCfg { Or(bucket, ZERO_BUCKET) }

  // readLiveBuckets: the default as configured, fast finality only when enabled.
  function LiveBuckets(l: Lane): (BucketCfg, Option<BucketCfg>)
  {
    (BucketFromChain(l.standard),
     if l.fast.outbound.enabled || l.fast.inbound.enabled then Some(BucketFromChain(l.fast)) else None)
  }

  function Bound(cfg: Option<BucketCfg>, was: Bucket): Bucket
    requires cfg.Some? ==> BucketToBinding(cfg.value).Ok?
  {
    if cfg.Some? then BucketToBinding(cfg.value).value else was
  }

  predicate BoundSane(cfg: Option<BucketCfg>)
    requires cfg.Some? ==> BucketToBinding(cfg.value).Ok?
  {
    cfg.Some? ==> Sane(BucketToBinding(cfg.value).value)
  }

  // Both buckets of one lane, whichever are supplied.
  lemma LimitsOf(lane: Lane, standard: Option<BucketCfg>, fast: Option<BucketCfg>)
    requires standard.Some? ==> BucketToBinding(standard.value).Ok?
    requires fast.Some? ==> BucketToBinding(fast.value).Ok?
    ensures LimitsApplied(Some(lane), Tagged(standard, false) + Tagged(fast, true)) ==
            if BoundSane(standard) && BoundSane(fast) then
              Some(Some(lane.(standard := Bound(standard, lane.standard), fast := Bound(fast, lane.fast))))
            else None
  {
    var a, b := Tagged(standard, false), Tagged(fast, true);
    assert standard.Some? ==> a[..0] == [];
    assert LimitsApplied(Some(lane), a) == if BoundSane(standard)
        then Some(Some(lane.(standard := Bound(standard, lane.standard)))) else None;
    if fast.Some? {
      assert (a + b)[..|a + b| - 1] == a;
    } else {
      assert a + b == a;
    }
  }

  lemma SuppliedBindable(rc: Remote, standard: Option<BucketCfg>, fast: Option<BucketCfg>)
    requires ResolveBuckets(rc) == Ok((standard, fast))
    requires standard.Some? ==> BucketToBinding(standard.value).Ok?
    requires fast.Some? ==> BucketToBinding(fast.value).Ok?
    ensures Bindable(rc)
    ensures Supplied(rc.standardOut, rc.standardIn) == if standard.Some?
            then Some(BucketToBinding(standard.value).value) else None
    ensures Supplied(rc.fastOut, rc.fastIn) == if fast.Some? then Some(BucketToBinding(fast.value).value) else None
  {
  }

  lemma UpdateStep(r: Roles, lane: Option<Lane>, rc: Remote, standard: BucketCfg)
    requires PoolChainUpdate(rc, standard, lane.Some?).Ok?
    ensures RemoteTokenWireBytes(rc.native, rc.token).Ok? && BucketToBinding(standard).Ok?
    ensures var b := BucketToBinding(standard).value;
            LaneStep(r, r.owner, lane, PoolChainUpdate(rc, standard, lane.Some?).value) ==
            if Sane(b) then Some(Lane(RemoteTokenWireBytes(rc.native, rc.token).value, [LeftPad(rc.pool)], b,
                                      UNLIMITED))
            else None
  {
    PoolFormPadded(rc.native.value, rc.pool);
  }

  // The chain update builds a lane with no fast-finality limits; its bucket follows.
  lemma UpdateThenFast(r: Roles, lane: Option<Lane>, rc: Remote, standard: BucketCfg, fast: Option<BucketCfg>)
    requires PoolChainUpdate(rc, standard, lane.Some?).Ok?
    requires forall b | b in Tagged(fast, true) :: BucketToBinding(b.cfg).Ok?
    ensures RemoteTokenWireBytes(rc.native, rc.token).Ok? && BucketToBinding(standard).Ok?
    ensures fast.Some? ==> BucketToBinding(fast.value).Ok?
    ensures (match LaneStep(r, r.owner, lane, PoolChainUpdate(rc, standard, lane.Some?).value)
             case None => None
             case Some(l) => LimitsApplied(Some(l), Tagged(fast, true)))
            == if Sane(BucketToBinding(standard).value) && BoundSane(fast) then
                 Some(Some(Lane(RemoteTokenWireBytes(rc.native, rc.token).value, [LeftPad(rc.pool)],
                                BucketToBinding(standard).value, Bound(fast, UNLIMITED))))
               else None
  {
    UpdateStep(r, lane, rc, standard);
    if fast.Some? { assert Tagged(fast, true)[0].cfg == fast.value; }
    var l := Lane(RemoteTokenWireBytes(rc.native, rc.token).value, [LeftPad(rc.pool)],
                  BucketToBinding(standard).value, UNLIMITED);
    LimitsOf(l, None, fast);
    assert Tagged(None, false) + Tagged(fast, true) == Tagged(fast, true);
  }

  lemma NewLaneIsWanted(r: Roles, rc: Remote, standard: Option<BucketCfg>, fast: Option<BucketCfg>)
    requires ResolveBuckets(rc) == Ok((standard, fast))
    requires PoolChainUpdate(rc, NonNil(standard), false).Ok?
    requires forall b | b in Tagged(fast, true) :: BucketToBinding(b.cfg).Ok?
    ensures Bindable(rc)
    ensures (match LaneStep(r, r.owner, None, PoolChainUpdate(rc, NonNil(standard), false).value)
             case None => None
             case Some(l) => LimitsApplied(Some(l), Tagged(fast, true)))
            == LaneGoal(None, rc)
  {
    UpdateThenFast(r, None, rc, NonNil(standard), fast);
    SuppliedBindable(rc, standard, fast);
    assert BucketToBinding(ZERO_BUCKET) == Ok(UNLIMITED);
  }

  // A replaced lane gets its live limits back where none are supplied.
  lemma ReplacedLaneIsWanted(r: Roles, lane: Lane, rc: Remote, standard: Option<BucketCfg>, fast: Option<BucketCfg>,
                             std': BucketCfg, fast': Option<BucketCfg>)
    requires ResolveBuckets(rc) == Ok((standard, fast)) && SaneLane(lane)
    requires std' == Or(standard, LiveBuckets(lane).0)
    requires fast' == if fast.Some? then fast else LiveBuckets(lane).1
    requires RemoteTokenWireBytes(rc.native, rc.token) != Ok(lane.token)
    requires PoolChainUpdate(rc, std', true).Ok?
    requires forall b | b in Tagged(fast', true) :: BucketToBinding(b.cfg).Ok?
    ensures Bindable(rc)
    ensures (match LaneStep(r, r.owner, Some(lane), PoolChainUpdate(rc, std', true).value)
             case None => None
             case Some(l) => LimitsApplied(Some(l), Tagged(fast', true)))
            == LaneGoal(Some(lane), rc)
  {
    UpdateThenFast(r, Some(lane), rc, std', fast');
    SuppliedBindable(rc, standard, fast);
    LiveBucketSurvives(lane.standard);
    LiveBucketSurvives(lane.fast);
    assert fast'.None? ==> lane.fast == UNLIMITED;
  }

  predicate PoolAddDue(lane: Lane, rc: Remote) { rc.pool != [] && MatchingEntries(lane.pools, rc.pool) == [] }

  // The pool list a kept lane ends with.
  function KeptPools(lane: Lane, rc: Remote): seq<Bytes>
  {
    if PoolAddDue(lane, rc) then lane.pools + [LeftPad(rc.pool)] else lane.pools
  }

  lemma PoolAddStep(r: Roles, l: Lane, lane: Lane, rc: Remote)
    requires PoolAddDue(lane, rc) && l.pools == lane.pools
    ensures LaneStep(r, r.owner, Some(l), AddRemotePool(LeftPad(rc.pool))) == Some(l.(pools := KeptPools(lane, rc)))
  {
    MatchingMembers(lane.pools, rc.pool);
    assert LeftPad(rc.pool) in lane.pools ==> LeftPad(rc.pool) in MatchingEntries(lane.pools, rc.pool);
  }

  lemma KeptLimits(lane: Lane, rc: Remote, standard: Option<BucketCfg>, fast: Option<BucketCfg>)
    requires ResolveBuckets(rc) == Ok((standard, fast))
    requires RemoteTokenWireBytes(rc.native, rc.token) == Ok(lane.token)
    requires AllBind(Tagged(standard, false) + Tagged(fast, true))
    ensures var limits := Tagged(standard, false) + Tagged(fast, true);
            var want := WantLane(Some(lane), rc);
            && want.pools == KeptPools(lane, rc)
            && LimitsApplied(Some(lane), limits) ==
               (if SuppliedSane(rc) then Some(Some(want.(pools := lane.pools))) else None)
            && LimitsApplied(Some(lane.(pools := want.pools)), limits) ==
               (if SuppliedSane(rc) then Some(Some(want)) else None)
  {
    hide LeftPad, MatchingEntries, LimitsApplied, BucketToBinding;
    KeptLimitsBind(rc, standard, fast);
    SuppliedBindable(rc, standard, fast);
    LimitsOf(lane, standard, fast);
    LimitsOf(lane.(pools := KeptPools(lane, rc)), standard, fast);
  }

  // On a kept lane the pool entry and the limits are independent.
  lemma KeptLaneIsWanted(r: Roles, lane: Lane, rc: Remote, standard: Option<BucketCfg>, fast: Option<BucketCfg>)
    requires ResolveBuckets(rc) == Ok((standard, fast))
    requires RemoteTokenWireBytes(rc.native, rc.token) == Ok(lane.token)
    requires AllBind(Tagged(standard, false) + Tagged(fast, true))
    ensures Bindable(rc)
    ensures var limits := Tagged(standard, false) + Tagged(fast, true);
            var wanted := LaneGoal(Some(lane), rc);
            if !PoolAddDue(lane, rc) then LimitsApplied(Some(lane), limits) == wanted
            else
              var write := AddRemotePool(LeftPad(rc.pool));
              && LaneStep(r, r.owner, Some(lane), write).Some?
              && LimitsApplied(LaneStep(r, r.owner, Some(lane), write), limits) == wanted
              && (match LimitsApplied(Some(lane), limits)
                  case Some(Some(l)) => LaneStep(r, r.owner, Some(l), write) == Some(WantLane(Some(lane), rc)) &&
                    wanted.Some?
                  case _ => wanted.None?)
  {
    hide LeftPad, MatchingEntries, LimitsApplied, Tagged, WantLane, LaneStep, ResolveBuckets, SuppliedSane;
    KeptLimitsBind(rc, standard, fast);
    KeptLimits(lane, rc, standard, fast);
    var want := WantLane(Some(lane), rc);
    if PoolAddDue(lane, rc) {
      PoolAddStep(r, lane, lane, rc);
      PoolAddStep(r, want.(pools := lane.pools), lane, rc);
    } else {
      assert want.(pools := lane.pools) == want;
    }
  }

  // ---- when one remote's run succeeds --------------------------------------------------

  predicate UpdateDue(lane: Option<Lane>, rc: Remote)
  {
    lane.None? || RemoteTokenWireBytes(rc.native, rc.token) != Ok(lane.value.token)
  }

  // The input fits, every due write has an identity to make it, and what the
  // deployer writes itself is accepted.
  predicate LaneRuns(w: World, deployer: Address, timelock: Option<Address>, rc: Remote)
  {
    var lane := LaneAt(w, rc.sel);
    && Checked(lane, rc)
    && if UpdateDue(lane, rc) then
         Routable(w.roles.owner, deployer, timelock) && (w.roles.owner == deployer ==> SuppliedSane(rc))
       else
         && (PoolAddDue(lane.value, rc) ==> Routable(w.roles.owner, deployer, timelock))
         && (rc.standardOut.Some? || rc.fastOut.Some? ==>
               RateCaller(w.roles, deployer, timelock, false, false).Ok? &&
                 (MaySetLimits(w.roles, deployer) ==> SuppliedSane(rc)))
  }

  lemma NewLaneRuns(w: World, deployer: Address, timelock: Option<Address>, rc: Remote, standard: Option<BucketCfg>,
                    fast: Option<BucketCfg>)
    requires ResolveBuckets(rc) == Ok((standard, fast)) && LaneAt(w, rc.sel).None?
    ensures var update := PoolChainUpdate(rc, NonNil(standard), false);
            LaneRuns(w, deployer, timelock, rc) <==>
              update.Ok? && WriteRuns(w, deployer, timelock, rc.sel, update.value, fast)
  {
    assert BucketToBinding(ZERO_BUCKET) == Ok(UNLIMITED);
    if rc.pool != [] && rc.native.Some? { PoolFormPadded(rc.native.value, rc.pool); }
    if PoolChainUpdate(rc, NonNil(standard), false).Ok? && (fast.Some? ==> BucketToBinding(fast.value).Ok?) {
      NewLaneIsWanted(w.roles, rc, standard, fast);
    }
  }

  lemma ReplacedLaneRuns(w: World, deployer: Address, timelock: Option<Address>, rc: Remote, lane: Lane,
                         standard: Option<BucketCfg>, fast: Option<BucketCfg>, std': BucketCfg,
                         fast': Option<BucketCfg>)
    requires ResolveBuckets(rc) == Ok((standard, fast)) && SaneLane(lane) && LaneAt(w, rc.sel) == Some(lane)
    requires std' == Or(standard, LiveBuckets(lane).0)
    requires fast' == if fast.Some? then fast else LiveBuckets(lane).1
    requires UpdateDue(Some(lane), rc)
    ensures var update := PoolChainUpdate(rc, std', true);
            LaneRuns(w, deployer, timelock, rc) <==>
              update.Ok? && WriteRuns(w, deployer, timelock, rc.sel, update.value, fast')
  {
    hide U128ToBigInt, BigIntToU128, LimitsApplied, LaneStep, LeftPad, WantLane;
    LiveBucketSurvives(lane.standard);
    LiveBucketSurvives(lane.fast);
    if PoolChainUpdate(rc, std', true).Ok? && (fast'.Some? ==> BucketToBinding(fast'.value).Ok?) {
      ReplacedLaneIsWanted(w.roles, lane, rc, standard, fast, std', fast');
    }
  }

  // A kept lane's run is its pool write's and its limits', which do not meet.
  lemma KeptLaneRuns(w: World, lane: Lane, deployer: Address, timelock: Option<Address>, rc: Remote,
                     standard: Option<BucketCfg>, fast: Option<BucketCfg>)
    requires ResolveBuckets(rc) == Ok((standard, fast))
    requires LaneAt(w, rc.sel) == Some(lane) && RemoteTokenWireBytes(rc.native, rc.token) == Ok(lane.token)
    ensures var buckets := Tagged(standard, false) + Tagged(fast, true);
            LaneRuns(w, deployer, timelock, rc) <==>
              && (rc.pool != [] ==> RemotePoolWireBytes(rc.native, rc.pool).Ok?)
              && (PoolAddDue(lane, rc) ==> Routable(w.roles.owner, deployer, timelock))
              && (buckets != [] ==> LimitsRun(w, deployer, timelock, false, false, rc.sel, buckets, 0))
  {
    hide LimitsApplied, BucketToBinding, MatchingEntries, LeftPad, RemotePoolWireBytes, AllBind, Sane, RateCaller,
         Routable;
    var buckets := Tagged(standard, false) + Tagged(fast, true);
    KeptLimitsBind(rc, standard, fast);
    if AllBind(buckets) {
      SuppliedBindable(rc, standard, fast);
      LimitsOf(lane, standard, fast);
    }
  }

  lemma KeptLimitsBind(rc: Remote, standard: Option<BucketCfg>, fast: Option<BucketCfg>)
    requires ResolveBuckets(rc) == Ok((standard, fast))
    ensures AllBind(Tagged(standard, false) + Tagged(fast, true)) <==> Bindable(rc)
    ensures AllBind(Tagged(standard, false) + Tagged(fast, true)) ==>
              (standard.Some? ==> BucketToBinding(standard.value).Ok?) &&
                (fast.Some? ==> BucketToBinding(fast.value).Ok?)
  {
    var buckets := Tagged(standard, false) + Tagged(fast, true);
    assert standard.Some? ==> buckets[0].cfg == standard.value;
    assert fast.Some? ==> buckets[|buckets| - 1].cfg == fast.value;
  }

  // The pool write does not change whether the limits are accepted.
  lemma PoolAddedKeeps(before: World, mid: World, deployer: Address, timelock: Option<Address>, rc: Remote,
                       lane: Lane, pw: seq<Op>, buckets: seq<TaggedBucket>)
    requires LaneAt(before, rc.sel) == Some(lane) && PoolAdded(before, mid, timelock, rc, lane, pw)
    ensures LimitsRun(mid, deployer, timelock, false, false, rc.sel, buckets, 0) <==>
            LimitsRun(before, deployer, timelock, false, false, rc.sel, buckets, 0)
  {
    if AllBind(buckets) && mid != before { SameAcceptance(lane, LaneAt(mid, rc.sel).value, buckets); }
  }

  lemma {:induction false} SameAcceptance(a: Lane, b: Lane, buckets: seq<TaggedBucket>)
    requires AllBind(buckets)
    ensures LimitsApplied(Some(a), buckets).Some? <==> LimitsApplied(Some(b), buckets).Some?
    ensures LimitsApplied(Some(a), buckets).Some? ==> LimitsApplied(Some(a), buckets).value.Some?
    ensures LimitsApplied(Some(b), buckets).Some? ==> LimitsApplied(Some(b), buckets).value.Some?
  {
    if buckets != [] { SameAcceptance(a, b, buckets[..|buckets| - 1]); }
  }

  // One remote's lane: a new lane, an atomic replacement when the token changed,
  // or the missing pool entry and the supplied limits.
  method ConfigureLane(router: Router, rc: Remote, defBucket: Option<BucketCfg>, ffBucket: Option<BucketCfg>)
    returns (r: Result<seq<BatchOp>, string>, ghost pw: seq<Op>)
    requires router.timelock != Some(router.deployer) && router.owner == router.chain.world.roles.owner
    requires ResolveBuckets(rc) == Ok((defBucket, ffBucket))
    requires var lane := LaneAt(router.chain.world, rc.sel); lane.Some? ==> SaneLane(lane.value)
    modifies router, router.chain
    ensures r.Ok? ==> router.writes == old(router.writes) + pw
    ensures r.Ok? ==> LaneDone(old(router.chain.world), router.chain.world, router.timelock, rc, pw + Queued(r.value))
    ensures r.Ok? <==> LaneRuns(old(router.chain.world), router.deployer, router.timelock, rc)
    ensures r.Ok? && LaneSettled(LaneAt(old(router.chain.world), rc.sel), rc) ==>
              router.writes == old(router.writes) && (forall op | op in Queued(r.value) :: OnlyLimits(op)) &&
                LogOnlyLimits(old(router.chain.log), router.chain.log)
  {
    pw := [];
    var chain := router.chain;
    ghost var before := chain.world;
    var lane := LaneAt(chain.world, rc.sel);
    if lane.None? {
      NewLaneRuns(chain.world, router.deployer, router.timelock, rc, defBucket, ffBucket);
      var add := PoolChainUpdate(rc, NonNil(defBucket), false);
      if add.Err? { return Err(add.error), pw; }
      r, pw := WriteLaneThenFast(router, rc.sel, add.value, ffBucket);
      if r.Ok? { NewLaneIsWanted(before.roles, rc, defBucket, ffBucket); }
      return r, pw;
    }
    var wantToken := RemoteTokenWireBytes(rc.native, rc.token);
    if wantToken.Err? { return Err(wantToken.error), pw; }
    if lane.value.token != wantToken.value {
      var live := LiveBuckets(lane.value);
      var std := Or(defBucket, live.0);
      var ff := if ffBucket.None? then live.1 else ffBucket;
      ReplacedLaneRuns(chain.world, router.deployer, router.timelock, rc, lane.value, defBucket, ffBucket, std, ff);
      var add := PoolChainUpdate(rc, std, true);
      if add.Err? { return Err(add.error), pw; }
      r, pw := WriteLaneThenFast(router, rc.sel, add.value, ff);
      if r.Ok? { ReplacedLaneIsWanted(before.roles, lane.value, rc, defBucket, ffBucket, std, ff); }
      return r, pw;
    }
    r, pw := UpdateKeptLane(router, rc, lane.value, defBucket, ffBucket);
  }

  // The pool write of a kept lane: none when the pool is there, executed, or queued.
  predicate PoolAdded(before: World, mid: World, timelock: Option<Address>, rc: Remote, lane: Lane, pw: seq<Op>)
  {
    var add := OnLane(rc.sel, AddRemotePool(LeftPad(rc.pool)));
    if !PoolAddDue(lane, rc) then pw == [] && mid == before
    else if pw == [] then Step(before, before.roles.owner, add) == Some(mid)
    else pw == [add] && mid == before && timelock == Some(before.roles.owner)
  }

  method AddMissingPool(router: Router, rc: Remote, lane: Lane) returns (r: Result<bool, string>, ghost pw: seq<Op>)
    requires router.timelock != Some(router.deployer) && router.owner == router.chain.world.roles.owner
    requires LaneAt(router.chain.world, rc.sel) == Some(lane)
    modifies router, router.chain
    ensures r.Ok? <==> (rc.pool != [] ==> RemotePoolWireBytes(rc.native, rc.pool).Ok?) &&
                       (PoolAddDue(lane, rc) ==> Routable(router.owner, router.deployer, router.timelock))
    ensures r.Ok? ==> router.writes == old(router.writes) + pw
    ensures r.Ok? ==> PoolAdded(old(router.chain.world), router.chain.world, router.timelock, rc, lane, pw)
    ensures !PoolAddDue(lane, rc) ==> router.writes == old(router.writes) && router.chain.log == old(router.chain.log)
  {
    pw := [];
    if |rc.pool| > 0 {
      var padded := RemotePoolWireBytes(rc.native, rc.pool);
      if padded.Err? { return Err(padded.error), pw; }
      PoolFormPadded(rc.native.value, rc.pool);
      if MatchingEntries(lane.pools, rc.pool) == [] {
        var op := OnLane(rc.sel, AddRemotePool(padded.value));
        var routed := router.Route(router.owner, op);
        if routed.Err? { return Err(routed.error), pw; }
        if !routed.value { pw := [op]; }
        return Ok(true), pw;
      }
    }
    return Ok(false), pw;
  }

  // The supplied limits of a kept lane, when there are any.
  ghost predicate SuppliedLimitsDone(mid: World, after: World, timelock: Option<Address>, sel: Selector,
                                     buckets: seq<TaggedBucket>, rw: seq<Op>, direct: bool)
  {
    && (if buckets == [] then after == mid && rw == []
        else
          && LimitsDone(mid, after, timelock, direct, sel, buckets, rw)
          && AvoidsFinality(rw) && mid.finality == after.finality)
    && (rw != [] ==> timelock.Some?)
  }

  method SetSuppliedLimits(chain: Chain, deployer: Address, timelock: Option<Address>, sel: Selector,
                           buckets: seq<TaggedBucket>)
    returns (r: Result<seq<BatchOp>, string>, ghost direct: bool)
    requires timelock != Some(deployer)
    modifies chain
    ensures r.Ok? <==> (buckets != [] ==>
                        LimitsRun(old(chain.world), deployer, timelock, false, false, sel, buckets, 0))
    ensures r.Ok? ==> SuppliedLimitsDone(old(chain.world), chain.world, timelock, sel, buckets, Queued(r.value), direct)
    ensures r.Ok? ==> (forall op | op in Queued(r.value) :: OnlyLimits(op)) && LogOnlyLimits(old(chain.log), chain.log)
  {
    if |buckets| == 0 { return Ok([]), true; }
    r, direct := SetTokenPoolRateLimits(chain, deployer, timelock, false, false, sel, buckets, 0);
  }

  // Same token: add the remote pool if missing, then the supplied limits.
  method UpdateKeptLane(router: Router, rc: Remote, lane: Lane, defBucket: Option<BucketCfg>,
                        ffBucket: Option<BucketCfg>)
    returns (r: Result<seq<BatchOp>, string>, ghost pw: seq<Op>)
    requires router.timelock != Some(router.deployer) && router.owner == router.chain.world.roles.owner
    requires ResolveBuckets(rc) == Ok((defBucket, ffBucket))
    requires LaneAt(router.chain.world, rc.sel) == Some(lane) &&
             RemoteTokenWireBytes(rc.native, rc.token) == Ok(lane.token)
    modifies router, router.chain
    ensures r.Ok? ==> router.writes == old(router.writes) + pw
    ensures r.Ok? ==> LaneDone(old(router.chain.world), router.chain.world, router.timelock, rc, pw + Queued(r.value))
    ensures r.Ok? <==> LaneRuns(old(router.chain.world), router.deployer, router.timelock, rc)
    ensures r.Ok? && LaneSettled(Some(lane), rc) ==>
              && router.writes == old(router.writes) && (forall op | op in Queued(r.value) :: OnlyLimits(op))
              && LogOnlyLimits(old(router.chain.log), router.chain.log)
  {
    hide LaneDone, LogOnlyLimits, OnlyLimits, PoolAdded, SuppliedLimitsDone, LimitsRun, LaneRuns;
    ghost var before := router.chain.world;
    var buckets := Tagged(defBucket, false) + Tagged(ffBucket, true);
    KeptLaneRuns(before, lane, router.deployer, router.timelock, rc, defBucket, ffBucket);
    var added;
    added, pw := AddMissingPool(router, rc, lane);
    if added.Err? { return Err(added.error), pw; }
    ghost var mid, direct := router.chain.world, true;
    PoolAddedKeeps(before, mid, router.deployer, router.timelock, rc, lane, pw, buckets);
    r, direct := SetSuppliedLimits(router.chain, router.deployer, router.timelock, rc.sel, buckets);
    if r.Ok? {
      KeptLaneDone(before, mid, router.chain.world, router.timelock, rc, lane, defBucket, ffBucket, pw, Queued(r.value),
                   direct);
    }
  }

  lemma KeptLaneDone(before: World, mid: World, after: World, timelock: Option<Address>, rc: Remote, lane: Lane,
                     standard: Option<BucketCfg>, fast: Option<BucketCfg>, pw: seq<Op>, rw: seq<Op>, direct: bool)
    requires ResolveBuckets(rc) == Ok((standard, fast))
    requires LaneAt(before, rc.sel) == Some(lane) && RemoteTokenWireBytes(rc.native, rc.token) == Ok(lane.token)
    requires rc.pool != [] ==> RemotePoolWireBytes(rc.native, rc.pool).Ok?
    requires PoolAdded(before, mid, timelock, rc, lane, pw)
    requires SuppliedLimitsDone(mid, after, timelock, rc.sel, Tagged(standard, false) + Tagged(fast, true), rw, direct)
    ensures LaneDone(before, after, timelock, rc, pw + rw)
  {
    hide WantLane, LimitsApplied, Tagged, SuppliedSane, MatchingEntries, LeftPad, LimitsDone, ResolveBuckets, RunLane,
         AllBind;
    var tl := Or(timelock, "");
    var limits := Tagged(standard, false) + Tagged(fast, true);
    LimitsRunAs(mid, after, timelock, rc.sel, limits, rw, direct);
    KeptLimitsBind(rc, standard, fast);
    KeptLaneIsWanted(before.roles, lane, rc, standard, fast);
    RunLaneConcat(after.roles, tl, LaneAt(after, rc.sel), pw, rw, rc.sel);
    EmptyRun(after.roles, tl, rc.sel);
    if pw != [] { OneLaneWrite(after.roles, tl, LaneAt(after, rc.sel), rc.sel, pw[0].write); }
  }

  lemma EmptyRun(r: Roles, invoker: Address, sel: Selector)
    ensures forall l :: RunLane(r, invoker, l, [], sel) == Some(l)
  {
  }

  // Whoever writes them, the supplied limits end up applied to the lane.
  lemma LimitsRunAs(mid: World, after: World, timelock: Option<Address>, sel: Selector, buckets: seq<TaggedBucket>,
                    rw: seq<Op>, direct: bool)
    requires SuppliedLimitsDone(mid, after, timelock, sel, buckets, rw, direct)
    ensures AllBind(buckets)
    ensures if rw == [] then Some(LaneAt(after, sel)) == LimitsApplied(LaneAt(mid, sel), buckets)
            else LaneAt(after, sel) == LaneAt(mid, sel) &&
                 forall l :: RunLane(after.roles, Or(timelock, ""), l, rw, sel) == LimitsApplied(l, buckets)
    ensures after == mid.(lanes := after.lanes) && (forall s | s != sel :: LaneAt(after, s) == LaneAt(mid, s))
    ensures forall op | op in rw :: op.OnLane? && op.sel == sel
  {
    assert rw != [] ==> rw[0] in rw;
    if rw == [] {
      assert RunLane(after.roles, Or(timelock, ""), LaneAt(after, sel), rw, sel) == Some(LaneAt(after, sel));
    }
  }

  // ---- what the result means -------------------------------------------------------------------

  // An independent reading of a configured lane.
  ghost predicate LaneReads(before: Option<Lane>, rc: Remote, after: Lane)
  {
    // the token is the remote family's native form of the given address
    && (Some(|after.token|) == rc.native && LeftPad(after.token) == LeftPad(rc.token))
    // a given remote pool is stored, in one of the two forms of its address
    && (rc.pool != [] ==> exists p | p in after.pools :: LeftPad(p) == LeftPad(rc.pool))
    // pools are only ever added while the token stands; else the given one is alone
    && (if before.Some? && before.value.token == after.token then before.value.pools <= after.pools
        else after.pools == [LeftPad(rc.pool)])
    // each limit is the supplied one, else the one that stood, else unlimited
    && var stood := if before.Some? then (before.value.standard, before.value.fast) else (UNLIMITED, UNLIMITED);
    && LimitReads(rc.standardOut, stood.0.outbound, after.standard.outbound)
    && LimitReads(rc.standardIn, stood.0.inbound, after.standard.inbound)
    && LimitReads(rc.fastOut, stood.1.outbound, after.fast.outbound)
    && LimitReads(rc.fastIn, stood.1.inbound, after.fast.inbound)
  }

  predicate LimitReads(supplied: Option<LimitCfg>, was: Limit, now: Limit)
  {
    match supplied
    case None => now == was
    case Some(cfg) =>
      && now.enabled == cfg.enabled
      && U128ToBigInt(now.capacity) == Or(cfg.capacity, 0) && U128ToBigInt(now.rate) == Or(cfg.rate, 0)
  }

  lemma BindingReads(cfg: LimitCfg, was: Limit)
    requires LimitToBinding(cfg).Ok?
    ensures LimitReads(Some(cfg), was, LimitToBinding(cfg).value)
  {
    assert U128ToBigInt(UInt128Parts(0, 0)) == 0;
    if cfg.capacity.Some? { BigIntToU128Range(cfg.capacity.value); U128RoundTrip(cfg.capacity.value); }
    if cfg.rate.Some? { BigIntToU128Range(cfg.rate.value); U128RoundTrip(cfg.rate.value); }
  }

  lemma WantedLaneReads(lane: Option<Lane>, rc: Remote)
    requires Checked(lane, rc) && rc.native.value <= WIRE
    ensures LaneReads(lane, rc, WantLane(lane, rc))
  {
    TokenFormsInverse(rc.native.value, rc.token);
    PoolFormPadded(rc.native.value, rc.pool);
    var want := WantLane(lane, rc);
    var was := if lane.Some? then (lane.value.standard, lane.value.fast) else (UNLIMITED, UNLIMITED);
    if rc.standardOut.Some? {
      BindingReads(rc.standardOut.value, was.0.outbound);
      BindingReads(rc.standardIn.value, was.0.inbound);
    }
    if rc.fastOut.Some? {
      BindingReads(rc.fastOut.value, was.1.outbound);
      BindingReads(rc.fastIn.value, was.1.inbound);
    }
    if rc.pool != [] {
      if lane.Some? && lane.value.token == want.token && MatchingEntries(lane.value.pools, rc.pool) != [] {
        MatchingMembers(lane.value.pools, rc.pool);
        var p := MatchingEntries(lane.value.pools, rc.pool)[0];
        assert p in want.pools && LeftPad(p) == LeftPad(rc.pool);
      } else {
        assert LeftPad(rc.pool) in want.pools;
      }
    }
  }

  // Counterpart pools compare by exact bytes, but the padded form itself is
  // stored exactly unless a kept lane already holds only the raw form.
  lemma PaddedFormStored(lane: Option<Lane>, rc: Remote)
    requires Checked(lane, rc) && rc.pool != []
    ensures LeftPad(rc.pool) in WantLane(lane, rc).pools <==>
              !(lane.Some? && RemoteTokenWireBytes(rc.native, rc.token) == Ok(lane.value.token)
                && LeftPad(rc.pool) !in lane.value.pools && MatchingEntries(lane.value.pools, rc.pool) != [])
  {
  }

  lemma RawFormIsNotReplaced(rc: Remote, raw: Bytes)
    requires Bindable(rc) && rc.native == Some(20) && |rc.token| == 20 && rc.pool == raw && |raw| == 20
    ensures var lane := Lane(rc.token, [raw], UNLIMITED, UNLIMITED);
            Checked(Some(lane), rc) && LeftPad(raw) !in WantLane(Some(lane), rc).pools
  {
    assert MatchingEntries([raw], raw) == [raw];
  }

  lemma WantedIsSettled(lane: Option<Lane>, rc: Remote)
    requires Checked(lane, rc)
    ensures LaneSettled(Some(WantLane(lane, rc)), rc)
  {
    PoolFormPadded(rc.native.value, rc.pool);
    var want := WantLane(lane, rc);
    MatchingMembers(want.pools, rc.pool);
    if rc.pool != [] {
      if LeftPad(rc.pool) in want.pools {
        assert LeftPad(rc.pool) in MatchingEntries(want.pools, rc.pool);
      }
    }
  }

  // The wanted lane is what the same input wants of it again.
  lemma WantedAgain(lane: Option<Lane>, rc: Remote)
    requires Checked(lane, rc)
    ensures WantLane(Some(WantLane(lane, rc)), rc) == WantLane(lane, rc)
  {
    hide LeftPad, MatchingEntries, Supplied, RemotePoolWireBytes, Bindable;
    WantedIsSettled(lane, rc);
  }

  // Whoever may write the lane may write its limits.
  lemma RoutableCaller(r: Roles, deployer: Address, timelock: Option<Address>)
    requires Routable(r.owner, deployer, timelock)
    ensures RateCaller(r, deployer, timelock, false, false).Ok?
  {
  }

  lemma LaneRunsAgain(before: World, end: World, deployer: Address, timelock: Option<Address>, rc: Remote)
    requires LaneRuns(before, deployer, timelock, rc) && SuppliedSane(rc) && end.roles == before.roles
    requires LaneAt(end, rc.sel) == Some(WantLane(LaneAt(before, rc.sel), rc))
    ensures LaneRuns(end, deployer, timelock, rc)
  {
    hide LeftPad, MatchingEntries, Supplied, RemotePoolWireBytes, Bindable, WantLane, SuppliedSane;
    WantedIsSettled(LaneAt(before, rc.sel), rc);
    if Routable(before.roles.owner, deployer, timelock) { RoutableCaller(before.roles, deployer, timelock); }
  }
}
