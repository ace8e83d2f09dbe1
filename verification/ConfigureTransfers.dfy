/**
 deployment/adapters: configuring a token pool for its remote chains.  Every
 owner-gated write is executed now by the deployer or queued for the timelock,
 which later runs the returned batch in order.
 */
module ConfigureTransfers {
  import opened Wrappers
  import opened Words
  import opened WireBytes
  import opened TokenPool
  import opened WriteRouting
  import opened PoolRateLimits
  import opened QueuedWrites
  import opened RemoteLanes
  import opened CcvLists

  // ---- the whole configuration -------------------------------------------------------------

  ghost predicate Admissible(w: World, rc: Remote) { SuppliedSane(rc) && HookGoal(w, rc).Some? }

  ghost predicate Settled(w: World, rc: Remote)
  {
    LaneSettled(LaneAt(w, rc.sel), rc) && (w.roles.hooksOwner.Some? ==> HookSettled(HookAt(w, rc.sel), rc))
  }

  predicate DistinctRemotes(remotes: seq<Remote>)
  {
    forall i, j | 0 <= i < j < |remotes| :: remotes[i].sel != remotes[j].sel
  }

  // The world a finished configuration of these remotes leaves: every lane and
  // hooks entry as wanted, everything else as it was.
  ghost predicate Configured(before: World, after: World, remotes: seq<Remote>, finality: uint32)
  {
    && after.roles == before.roles
    && after.finality == WantedFinality(before, finality)
    && (forall rc | rc in remotes :: LaneAt(after, rc.sel) == Some(WantLane(LaneAt(before, rc.sel), rc)))
    && (forall rc | rc in remotes :: HookGoal(before, rc) == Some(HookAt(after, rc.sel)))
    && (forall s | (forall rc | rc in remotes :: rc.sel != s) ::
          LaneAt(after, s) == LaneAt(before, s) && HookAt(after, s) == HookAt(before, s))
  }

  // The direct writes are done; the queued ones are accepted in order iff every
  // remote is admissible, and then leave the configured world.
  ghost predicate ConfigurationDone(before: World, after: World, timelock: Option<Address>, remotes: seq<Remote>,
                                    finality: uint32, q: seq<Op>)
  {
    var end := Run(after, Or(timelock, ""), q);
    && (q != [] ==> timelock.Some?)
    && (forall rc | rc in remotes :: Checked(LaneAt(before, rc.sel), rc))
    && (end.Some? <==> forall rc | rc in remotes :: Admissible(before, rc))
    && (end.Some? ==> Configured(before, end.value, remotes, finality))
  }

  ghost function LaneGoalsOf(before: World, remotes: seq<Remote>): (m: LaneGoals)
    ensures m.Keys == set rc | rc in remotes :: rc.sel
  {
    if remotes == [] then map[]
    else
      var rc := remotes[|remotes| - 1];
      assert forall d :: d in remotes <==> d in remotes[..|remotes| - 1] || d == rc;
      LaneGoalsOf(before, remotes[..|remotes| - 1])[rc.sel := LaneGoal(LaneAt(before, rc.sel), rc)]
  }

  ghost function HookGoalsOf(before: World, remotes: seq<Remote>): (m: HookGoals)
    ensures m.Keys == set rc | rc in remotes :: rc.sel
  {
    if remotes == [] then map[]
    else
      var rc := remotes[|remotes| - 1];
      assert forall d :: d in remotes <==> d in remotes[..|remotes| - 1] || d == rc;
      HookGoalsOf(before, remotes[..|remotes| - 1])[rc.sel := HookGoal(before, rc)]
  }

  lemma {:induction false} GoalsOf(before: World, remotes: seq<Remote>)
    requires DistinctRemotes(remotes)
    ensures forall rc | rc in remotes ::
              && rc.sel in LaneGoalsOf(before, remotes) &&
                 LaneGoalsOf(before, remotes)[rc.sel] == LaneGoal(LaneAt(before, rc.sel), rc)
              && rc.sel in HookGoalsOf(before, remotes) && HookGoalsOf(before, remotes)[rc.sel] == HookGoal(before, rc)
  {
    if remotes != [] {
      var init := remotes[..|remotes| - 1];
      var last := remotes[|remotes| - 1];
      GoalsOf(before, init);
      forall rc | rc in remotes
        ensures LaneGoalsOf(before, remotes)[rc.sel] == LaneGoal(LaneAt(before, rc.sel), rc)
        ensures HookGoalsOf(before, remotes)[rc.sel] == HookGoal(before, rc)
      {
        if rc != last { assert rc in init; }
      }
    }
  }

  // The finality arm writes no lane and no hooks entry, and sets the word.
  ghost predicate FinalityArm(w: World, after: World, timelock: Option<Address>, finalityQ: seq<Op>, finality: uint32)
  {
    && after == w.(finality := after.finality, lanes := after.lanes)
    && (forall s :: LaneAt(after, s) == LaneAt(w, s))
    && (forall s, l :: RunLane(after.roles, Or(timelock, ""), l, finalityQ, s) == Some(l))
    && (forall op | op in finalityQ :: !op.ApplyCcv?)
    && (finalityQ != [] ==> timelock.Some?)
    && RunFinality(after.roles, Or(timelock, ""), after.finality, finalityQ) == Some(WantedFinality(w, finality))
  }

  lemma NoFinality(w: World, timelock: Option<Address>)
    ensures FinalityArm(w, w, timelock, [], 0)
  {
  }

  lemma FinalityOnly(w: World, after: World, timelock: Option<Address>, finalityQ: seq<Op>, anyRemote: Selector,
                     direct: bool, finality: uint32)
    requires finality != 0
    requires LimitsDone(w, after, timelock, direct, anyRemote, [], finalityQ) &&
             FinalityDone(after, timelock, finality, finalityQ)
    ensures FinalityArm(w, after, timelock, finalityQ, finality)
  {
    forall s, l ensures RunLane(after.roles, Or(timelock, ""), l, finalityQ, s) == Some(l) {
      RunLaneConcat(after.roles, Or(timelock, ""), l, finalityQ, [], s);
    }
  }

  lemma FinishedQueues(before: World, w: World, after: World, timelock: Option<Address>, remotes: seq<Remote>,
                       poolQ: seq<Op>, hookQ: seq<Op>, rateQ: seq<Op>, finalityQ: seq<Op>, finality: uint32)
    requires DistinctRemotes(remotes)
    requires ProgressOn(before, w, timelock, remotes, poolQ, hookQ, rateQ) && AllChecked(before, remotes)
    requires FinalityArm(w, after, timelock, finalityQ, finality)
    ensures ConfigurationDone(before, after, timelock, remotes, finality, poolQ + hookQ + (rateQ + finalityQ))
  {
    var q := poolQ + hookQ + (rateQ + finalityQ);
    QueuesFinish(before, w, after, timelock, LaneGoalsOf(before, remotes), HookGoalsOf(before, remotes),
                 poolQ, hookQ, rateQ, finalityQ, WantedFinality(before, finality));
    assert q != [] ==> timelock.Some?;
    ReachedIsDone(before, after, timelock, remotes, finality, q);
  }

  lemma ReachedIsDone(before: World, after: World, timelock: Option<Address>, remotes: seq<Remote>,
                      finality: uint32, q: seq<Op>)
    requires DistinctRemotes(remotes) && AllChecked(before, remotes)
    requires q != [] ==> timelock.Some?
    requires RunReaches(before, after, timelock, q, LaneGoalsOf(before, remotes), HookGoalsOf(before, remotes),
                        WantedFinality(before, finality))
    ensures ConfigurationDone(before, after, timelock, remotes, finality, q)
  {
    EachChecked(before, remotes);
    GoalsMeaning(before, remotes);
    var end := Run(after, Or(timelock, ""), q);
    if end.Some? { ReachedIsConfigured(before, end.value, remotes, finality); }
  }

  lemma {:induction false} GoalsMeaning(before: World, remotes: seq<Remote>)
    requires DistinctRemotes(remotes)
    ensures NoRefusal(LaneGoalsOf(before, remotes), HookGoalsOf(before, remotes)) <==>
              forall rc | rc in remotes :: Admissible(before, rc)
  {
    if remotes != [] {
      var init, rc := remotes[..|remotes| - 1], remotes[|remotes| - 1];
      GoalsMeaning(before, init);
      assert forall d :: d in remotes <==> d in init || d == rc;
      assert rc.sel !in LaneGoalsOf(before, init);
      GoalsSnoc(before, remotes);
      hide LaneGoalsOf, HookGoalsOf, HookGoal, WantLane, SuppliedSane, NoRefusal;
      NoRefusalGrows(LaneGoalsOf(before, init), HookGoalsOf(before, init), rc.sel, LaneGoal(LaneAt(before, rc.sel), rc),
                     HookGoal(before, rc));
    }
  }

  lemma GoalsSnoc(before: World, remotes: seq<Remote>)
    requires remotes != []
    ensures var init, rc := remotes[..|remotes| - 1], remotes[|remotes| - 1];
            && LaneGoalsOf(before, remotes) == LaneGoalsOf(before, init)[rc.sel := LaneGoal(LaneAt(before, rc.sel), rc)]
            && HookGoalsOf(before, remotes) == HookGoalsOf(before, init)[rc.sel := HookGoal(before, rc)]
  {
  }

  lemma NoRefusalGrows(laneGoals: LaneGoals, hookGoals: HookGoals, sel: Selector, l: Option<Option<Lane>>,
                       h: Option<Option<Ccv>>)
    requires sel !in laneGoals && sel !in hookGoals
    ensures NoRefusal(laneGoals[sel := l], hookGoals[sel := h]) <==>
              NoRefusal(laneGoals, hookGoals) && l.Some? && h.Some?
  {
    assert sel in laneGoals[sel := l] && sel in hookGoals[sel := h];
    assert forall s | s in laneGoals :: s in laneGoals[sel := l] && laneGoals[sel := l][s] == laneGoals[s];
    assert forall s | s in hookGoals :: s in hookGoals[sel := h] && hookGoals[sel := h][s] == hookGoals[s];
  }

  lemma ReachedIsConfigured(before: World, end: World, remotes: seq<Remote>, finality: uint32)
    requires DistinctRemotes(remotes)
    requires GoalsReached(before, end, LaneGoalsOf(before, remotes), HookGoalsOf(before, remotes))
    requires end.finality == WantedFinality(before, finality)
    ensures Configured(before, end, remotes, finality)
  {
    hide LaneGoalsOf, HookGoalsOf, HookGoal, WantLane, DistinctRemotes, LaneGoal;
    forall rc | rc in remotes
      ensures LaneAt(end, rc.sel) == Some(WantLane(LaneAt(before, rc.sel), rc)) &&
              HookGoal(before, rc) == Some(HookAt(end, rc.sel))
    {
      ReachedAt(before, end, remotes, rc);
    }
  }

  lemma ReachedAt(before: World, end: World, remotes: seq<Remote>, rc: Remote)
    requires DistinctRemotes(remotes) && rc in remotes
    requires GoalsReached(before, end, LaneGoalsOf(before, remotes), HookGoalsOf(before, remotes))
    ensures LaneAt(end, rc.sel) == Some(WantLane(LaneAt(before, rc.sel), rc)) &&
            HookGoal(before, rc) == Some(HookAt(end, rc.sel))
  {
    GoalsOf(before, remotes);
    GoalIsWanted(LaneAt(before, rc.sel), rc);
    hide LaneGoalsOf, HookGoalsOf, HookGoal, WantLane, DistinctRemotes, LaneGoal, LaneAt, HookAt;
    var laneGoals, hookGoals := LaneGoalsOf(before, remotes), HookGoalsOf(before, remotes);
    assert laneGoals[rc.sel] == Some(LaneAt(end, rc.sel)) && hookGoals[rc.sel] == Some(HookAt(end, rc.sel));
  }

  lemma GoalIsWanted(lane: Option<Lane>, rc: Remote)
    ensures LaneGoal(lane, rc).Some? ==> LaneGoal(lane, rc) == Some(Some(WantLane(lane, rc)))
  {
  }

  // Progress on the remotes done so far.
  ghost predicate ProgressOn(before: World, w: World, timelock: Option<Address>, done: seq<Remote>, poolQ: seq<Op>,
                             hookQ: seq<Op>, rateQ: seq<Op>)
  {
    Progress(before, w, timelock, LaneGoalsOf(before, done), HookGoalsOf(before, done), poolQ, hookQ, rateQ)
  }

  ghost predicate AllChecked(before: World, done: seq<Remote>)
  {
    done != [] ==>
      var rc := done[|done| - 1];
      Checked(LaneAt(before, rc.sel), rc) && AllChecked(before, done[..|done| - 1])
  }

  lemma {:induction false} EachChecked(before: World, done: seq<Remote>)
    requires AllChecked(before, done)
    ensures forall rc | rc in done :: Checked(LaneAt(before, rc.sel), rc)
  {
    if done != [] {
      EachChecked(before, done[..|done| - 1]);
      assert forall d :: d in done <==> d in done[..|done| - 1] || d == done[|done| - 1];
    }
  }

  lemma RemoteJoins(before: World, w: World, mid: World, after: World, timelock: Option<Address>, done: seq<Remote>,
                    rc: Remote, poolQ: seq<Op>, hookQ: seq<Op>, rateQ: seq<Op>, pw: seq<Op>, hw: seq<Op>,
                    rw: seq<Op>)
    requires ProgressOn(before, w, timelock, done, poolQ, hookQ, rateQ)
    requires forall d | d in done :: d.sel != rc.sel
    requires HookDone(w, mid, timelock, rc, hw) && HookGoal(w, rc) == HookGoal(before, rc)
    requires LaneDone(mid, after, timelock, rc, pw + rw) && LaneAt(mid, rc.sel) == LaneAt(before, rc.sel)
    ensures ProgressOn(before, after, timelock, done + [rc], poolQ + pw, hookQ + hw, rateQ + rw)
    ensures Checked(LaneAt(before, rc.sel), rc)
  {
    assert (done + [rc])[..|done|] == done;
    ProgressStep(before, w, mid, after, timelock, LaneGoalsOf(before, done), HookGoalsOf(before, done), poolQ, hookQ,
                 rateQ,
                 rc.sel, LaneGoal(LaneAt(before, rc.sel), rc), HookGoal(before, rc), pw, hw, rw);
  }

  function HookQueue(aphRouter: Router?): seq<Op>
    reads aphRouter
  {
    if aphRouter == null then [] else aphRouter.writes
  }

  // The two routers of one run; no hooks router when the pool has no hooks.
  predicate Wired(poolRouter: Router, aphRouter: Router?, chain: Chain, deployer: Address,
                  timelock: Option<Address>, roles: Roles)
  {
    && poolRouter.chain == chain && poolRouter.deployer == deployer && poolRouter.timelock == timelock
    && poolRouter.owner == roles.owner
    && (aphRouter == null ==> roles.hooksOwner.None?)
    && (aphRouter != null ==>
          && aphRouter != poolRouter && aphRouter.chain == chain && aphRouter.deployer == deployer
          && aphRouter.timelock == timelock && roles.hooksOwner == Some(aphRouter.owner))
  }

  // Nothing but supplied limits was queued or executed.
  ghost predicate LimitsOnly(laneQ: seq<Op>, hookQ: seq<Op>, rateQ: seq<Op>, log0: seq<(Address, Op)>,
                             log: seq<(Address, Op)>)
  {
    laneQ == [] && hookQ == [] && (forall op | op in rateQ :: OnlyLimits(op)) && LogOnlyLimits(log0, log)
  }

  // ---- when the run succeeds ---------------------------------------------------------------

  ghost predicate RemoteRuns(w: World, deployer: Address, timelock: Option<Address>, rc: Remote)
  {
    HookRuns(w, deployer, timelock, rc) && LaneRuns(w, deployer, timelock, rc)
  }

  // A finality word to set needs a rate-limit identity even when it stands already.
  predicate FinalityRuns(w: World, deployer: Address, timelock: Option<Address>, finality: uint32)
  {
    finality != 0 ==>
      && RateCaller(w.roles, deployer, timelock, false, false).Ok?
      && (w.finality == finality || Routable(w.roles.owner, deployer, timelock))
  }

  // No fee configuration, and every arm of every remote runs from the first world.
  ghost predicate RunSucceeds(w: World, deployer: Address, timelock: Option<Address>, remotes: seq<Remote>,
                              finality: uint32)
  {
    && (forall rc | rc in remotes :: !rc.transferFeeConfig)
    && (forall rc | rc in remotes :: RemoteRuns(w, deployer, timelock, rc))
    && FinalityRuns(w, deployer, timelock, finality)
  }

  // The CCV arm is skipped entirely when no hooks are wired.
  method ConfigureHooks(aphRouter: Router?, chain: Chain, rc: Remote, ghost deployer: Address,
                        ghost timelock: Option<Address>)
    returns (r: Result<bool, string>, ghost hw: seq<Op>)
    requires aphRouter == null ==> chain.world.roles.hooksOwner.None?
    requires aphRouter != null ==>
               aphRouter.chain == chain && aphRouter.deployer == deployer && aphRouter.timelock == timelock &&
               chain.world.roles.hooksOwner == Some(aphRouter.owner)
    requires timelock != Some(deployer)
    modifies aphRouter, chain
    ensures r.Ok? ==> HookQueue(aphRouter) == old(HookQueue(aphRouter)) + hw
    ensures r.Ok? ==> HookDone(old(chain.world), chain.world, timelock, rc, hw)
    ensures r.Ok? <==> HookRuns(old(chain.world), deployer, timelock, rc)
    ensures Settled(old(chain.world), rc) ==>
              && hw == [] && HookQueue(aphRouter) == old(HookQueue(aphRouter))
              && chain.world == old(chain.world) && chain.log == old(chain.log)
  {
    hw := [];
    if aphRouter == null { return Ok(false), hw; }
    r, hw := ApplyPoolCcvConfig(aphRouter, rc);
  }

  lemma LimitsOnlyStep(rateQ: seq<Op>, rw: seq<Op>, log0: seq<(Address, Op)>, log1: seq<(Address, Op)>,
                       log2: seq<(Address, Op)>)
    requires LimitsOnly([], [], rateQ, log0, log1)
    requires (forall op | op in rw :: OnlyLimits(op)) && LogOnlyLimits(log1, log2)
    ensures LimitsOnly([], [], rateQ + rw, log0, log2)
  {
  }

  // One map entry: its CCV lists when hooks are wired, then its lane.
  method ConfigureRemote(poolRouter: Router, aphRouter: Router?, rc: Remote, ghost before: World,
                         ghost done: seq<Remote>, ghost rateQ: seq<Op>)
    returns (r: Result<seq<BatchOp>, string>)
    requires poolRouter.timelock != Some(poolRouter.deployer)
    requires Wired(poolRouter, aphRouter, poolRouter.chain, poolRouter.deployer, poolRouter.timelock, before.roles)
    requires SaneWorld(before)
    requires forall d | d in done :: d.sel != rc.sel
    requires ProgressOn(before, poolRouter.chain.world, poolRouter.timelock, done, poolRouter.writes,
                        HookQueue(aphRouter), rateQ)
    modifies poolRouter, poolRouter.chain, aphRouter
    ensures r.Ok? ==> ProgressOn(before, poolRouter.chain.world, poolRouter.timelock, done + [rc], poolRouter.writes,
                                 HookQueue(aphRouter), rateQ + Queued(r.value))
    ensures r.Ok? ==> Checked(LaneAt(before, rc.sel), rc)
    ensures r.Ok? <==> RemoteRuns(before, poolRouter.deployer, poolRouter.timelock, rc)
    ensures r.Ok? && Settled(before, rc) ==>
              && poolRouter.writes == old(poolRouter.writes) && HookQueue(aphRouter) == old(HookQueue(aphRouter))
              && (forall op | op in Queued(r.value) :: OnlyLimits(op))
              && LogOnlyLimits(old(poolRouter.chain.log), poolRouter.chain.log)
  {
    hide ProgressOn, LaneDone, HookDone, Checked, LaneRuns, HookRuns, LogOnlyLimits, OnlyLimits, HookGoal, SaneWorld,
         ResolveBuckets;
    var resolved := ResolveBuckets(rc);
    if resolved.Err? {
      UnresolvedNeverRuns(before, poolRouter.deployer, poolRouter.timelock, rc);
      return Err(resolved.error);
    }
    ghost var w, poolQ, hookQ := poolRouter.chain.world, poolRouter.writes, HookQueue(aphRouter);
    UntouchedRemote(before, w, poolRouter.timelock, done, rc, poolQ, hookQ, rateQ);
    var c;
    ghost var hw, pw;
    c, hw := ConfigureHooks(aphRouter, poolRouter.chain, rc, poolRouter.deployer, poolRouter.timelock);
    if c.Err? { return Err(c.error); }
    ghost var mid := poolRouter.chain.world;
    LaneUntouched(before, w, mid, poolRouter.timelock, rc, hw);
    r, pw := ConfigureLane(poolRouter, rc, resolved.value.0, resolved.value.1);
    if r.Ok? {
      RemoteJoins(before, w, mid, poolRouter.chain.world, poolRouter.timelock, done, rc, poolQ, hookQ, rateQ, pw, hw,
                  Queued(r.value));
    }
  }

  lemma UnresolvedNeverRuns(w: World, deployer: Address, timelock: Option<Address>, rc: Remote)
    requires ResolveBuckets(rc).Err?
    ensures !RemoteRuns(w, deployer, timelock, rc)
  {
  }

  // The hooks' write leaves the lane alone.
  lemma LaneUntouched(before: World, w: World, mid: World, timelock: Option<Address>, rc: Remote, hw: seq<Op>)
    requires SaneWorld(before) && w.roles == before.roles && LaneAt(w, rc.sel) == LaneAt(before, rc.sel)
    requires HookDone(w, mid, timelock, rc, hw)
    ensures mid.roles == before.roles && LaneAt(mid, rc.sel) == LaneAt(before, rc.sel)
    ensures LaneAt(mid, rc.sel).Some? ==> SaneLane(LaneAt(mid, rc.sel).value)
    ensures forall deployer, tl :: LaneRuns(mid, deployer, tl, rc) <==> LaneRuns(before, deployer, tl, rc)
  {
  }

  // A remote not yet done is as before, so its goals read off the current world.
  lemma UntouchedRemote(before: World, w: World, timelock: Option<Address>, done: seq<Remote>, rc: Remote,
                        poolQ: seq<Op>, hookQ: seq<Op>, rateQ: seq<Op>)
    requires ProgressOn(before, w, timelock, done, poolQ, hookQ, rateQ)
    requires forall d | d in done :: d.sel != rc.sel
    ensures w.roles == before.roles && LaneAt(w, rc.sel) == LaneAt(before, rc.sel) &&
            HookAt(w, rc.sel) == HookAt(before, rc.sel)
    ensures HookGoal(w, rc) == HookGoal(before, rc)
    ensures Settled(w, rc) <==> Settled(before, rc)
    ensures forall deployer, tl ::
              && (HookRuns(w, deployer, tl, rc) <==> HookRuns(before, deployer, tl, rc))
              && (LaneRuns(w, deployer, tl, rc) <==> LaneRuns(before, deployer, tl, rc))
  {
    assert Untouched(before, w, rc.sel, poolQ + rateQ, hookQ);
  }

  // The loop over the map, in its iteration order.
  method ConfigureRemotes(poolRouter: Router, aphRouter: Router?, remotes: seq<Remote>, ghost before: World)
    returns (r: Result<seq<BatchOp>, string>)
    requires poolRouter.timelock != Some(poolRouter.deployer) && DistinctRemotes(remotes) && SaneWorld(before)
    requires Wired(poolRouter, aphRouter, poolRouter.chain, poolRouter.deployer, poolRouter.timelock, before.roles)
    requires poolRouter.chain.world == before && poolRouter.writes == [] && HookQueue(aphRouter) == []
    modifies poolRouter, poolRouter.chain, aphRouter
    ensures r.Ok? ==> ProgressOn(before, poolRouter.chain.world, poolRouter.timelock, remotes, poolRouter.writes,
                                 HookQueue(aphRouter), Queued(r.value))
    ensures r.Ok? ==> AllChecked(before, remotes)
    ensures r.Ok? <==> forall rc | rc in remotes :: RemoteRuns(before, poolRouter.deployer, poolRouter.timelock, rc)
    ensures r.Ok? && AllSettled(before, remotes) ==>
              LimitsOnly(poolRouter.writes, HookQueue(aphRouter), Queued(r.value), old(poolRouter.chain.log),
                         poolRouter.chain.log)
  {
    ghost var log0 := poolRouter.chain.log;
    var rateOps: seq<BatchOp> := [];
    ProgressEmpty(before, poolRouter.timelock);
    hide ProgressOn, RemoteRuns;
    for i := 0 to |remotes|
      invariant Wired(poolRouter, aphRouter, poolRouter.chain, poolRouter.deployer, poolRouter.timelock, before.roles)
      invariant ProgressOn(before, poolRouter.chain.world, poolRouter.timelock, remotes[..i], poolRouter.writes,
                           HookQueue(aphRouter), Queued(rateOps))
      invariant AllChecked(before, remotes[..i])
      invariant forall rc | rc in remotes[..i] :: RemoteRuns(before, poolRouter.deployer, poolRouter.timelock, rc)
      invariant AllSettled(before, remotes[..i]) ==>
                  LimitsOnly(poolRouter.writes, HookQueue(aphRouter), Queued(rateOps), log0, poolRouter.chain.log)
    {
      ghost var log1, rateQ := poolRouter.chain.log, Queued(rateOps);
      OneMore(before, remotes, i);
      var done := ConfigureRemote(poolRouter, aphRouter, remotes[i], before, remotes[..i], Queued(rateOps));
      if done.Err? { return Err(done.error); }
      QueuedConcat(rateOps, done.value);
      if AllSettled(before, remotes[..i + 1]) {
        LimitsOnlyStep(rateQ, Queued(done.value), log0, log1, poolRouter.chain.log);
      }
      rateOps := rateOps + done.value;
      assert Queued(rateOps) == rateQ + Queued(done.value);
    }
    assert remotes[..|remotes|] == remotes;
    return Ok(rateOps);
  }

  ghost predicate AllSettled(before: World, remotes: seq<Remote>)
  {
    remotes != [] ==> Settled(before, remotes[|remotes| - 1]) && AllSettled(before, remotes[..|remotes| - 1])
  }

  lemma {:induction false} EachSettled(before: World, remotes: seq<Remote>)
    requires forall rc | rc in remotes :: Settled(before, rc)
    ensures AllSettled(before, remotes)
  {
    if remotes != [] { EachSettled(before, remotes[..|remotes| - 1]); }
  }

  lemma OneMore(before: World, remotes: seq<Remote>, i: nat)
    requires i < |remotes| && DistinctRemotes(remotes)
    ensures forall d | d in remotes[..i] :: d.sel != remotes[i].sel
    ensures remotes[..i + 1] == remotes[..i] + [remotes[i]]
    ensures AllChecked(before, remotes[..i]) && Checked(LaneAt(before, remotes[i].sel), remotes[i]) ==>
              AllChecked(before, remotes[..i + 1])
    ensures AllSettled(before, remotes[..i + 1]) ==> AllSettled(before, remotes[..i]) && Settled(before, remotes[i])
  {
    assert remotes[..i + 1][..i] == remotes[..i];
  }

  // The pool-global finality arm, read before write.
  method ApplyFinality(poolRouter: Router, remotes: seq<Remote>, finality: uint32)
    returns (r: Result<seq<BatchOp>, string>)
    requires poolRouter.timelock != Some(poolRouter.deployer)
    modifies poolRouter.chain
    ensures r.Ok? <==> FinalityRuns(old(poolRouter.chain.world), poolRouter.deployer, poolRouter.timelock, finality)
    ensures r.Ok? ==> FinalityArm(old(poolRouter.chain.world), poolRouter.chain.world, poolRouter.timelock,
                                  Queued(r.value), finality)
    ensures r.Ok? ==>
              (forall op | op in Queued(r.value) :: OnlyLimits(op)) &&
              LogOnlyLimits(old(poolRouter.chain.log), poolRouter.chain.log)
  {
    hide FinalityDone, FinalityArm, OnlyLimits;
    if finality == 0 {
      NoFinality(poolRouter.chain.world, poolRouter.timelock);
      return Ok([]);
    }
    ghost var w, direct := poolRouter.chain.world, true;
    var anyRemote := if |remotes| > 0 then remotes[0].sel else 0;
    r, direct := SetTokenPoolRateLimits(poolRouter.chain, poolRouter.deployer, poolRouter.timelock, false, false,
                                        anyRemote, [], finality);
    if r.Ok? {
      FinalityOnly(w, poolRouter.chain.world, poolRouter.timelock, Queued(r.value), anyRemote, direct, finality);
    }
  }

  // The order of the output: the pool's lane writes, the hooks' writes, then
  // every dependent rate-limit write.
  method FinishConfiguration(poolRouter: Router, aphRouter: Router?, ghost before: World, remotes: seq<Remote>,
                             rateOps: seq<BatchOp>, finality: uint32)
    returns (r: Result<seq<BatchOp>, string>)
    requires poolRouter.timelock != Some(poolRouter.deployer) && DistinctRemotes(remotes)
    requires ProgressOn(before, poolRouter.chain.world, poolRouter.timelock, remotes, poolRouter.writes,
                        HookQueue(aphRouter), Queued(rateOps))
    requires AllChecked(before, remotes)
    modifies poolRouter.chain
    ensures r.Ok? <==> FinalityRuns(before, poolRouter.deployer, poolRouter.timelock, finality)
    ensures r.Ok? ==> ConfigurationDone(before, poolRouter.chain.world, poolRouter.timelock, remotes, finality,
                                        Queued(r.value))
    ensures r.Ok? ==> LogOnlyLimits(old(poolRouter.chain.log), poolRouter.chain.log)
    ensures r.Ok? ==> forall op | op in Queued(r.value) ::
                        OnlyLimits(op) || op in poolRouter.writes || op in HookQueue(aphRouter) || op in Queued(rateOps)
  {
    ghost var w := poolRouter.chain.world;
    var finalityOps := ApplyFinality(poolRouter, remotes, finality);
    if finalityOps.Err? { return Err(finalityOps.error); }
    var poolOut := poolRouter.Output();
    var aphOut := [];
    if aphRouter != null { aphOut := aphRouter.Output(); }
    OutputQueue(poolOut, aphOut, rateOps, finalityOps.value);
    FinishedQueues(before, w, poolRouter.chain.world, poolRouter.timelock, remotes, Queued(poolOut), Queued(aphOut),
                   Queued(rateOps), Queued(finalityOps.value), finality);
    return Ok(poolOut + aphOut + (rateOps + finalityOps.value));
  }

  lemma OutputQueue(a: seq<BatchOp>, b: seq<BatchOp>, c: seq<BatchOp>, d: seq<BatchOp>)
    ensures Queued(a + b + (c + d)) == Queued(a) + Queued(b) + (Queued(c) + Queued(d))
  {
    QueuedConcat(a, b);
    QueuedConcat(c, d);
    QueuedConcat(a + b, c + d);
  }

  method NoFeeConfig(remotes: seq<Remote>) returns (ok: bool)
    ensures ok <==> forall rc | rc in remotes :: !rc.transferFeeConfig
  {
    for i := 0 to |remotes|
      invariant forall rc | rc in remotes[..i] :: !rc.transferFeeConfig
    {
      if remotes[i].transferFeeConfig { return false; }
    }
    return true;
  }

  // The end of a run over settled remotes.
  lemma SettledRun(laneQ: seq<Op>, hookQ: seq<Op>, rateQ: seq<Op>, q: seq<Op>, log0: seq<(Address, Op)>,
                   log1: seq<(Address, Op)>, log2: seq<(Address, Op)>)
    requires LimitsOnly(laneQ, hookQ, rateQ, log0, log1) && LogOnlyLimits(log1, log2)
    requires forall op | op in q :: OnlyLimits(op) || op in laneQ || op in hookQ || op in rateQ
    ensures LimitsOnly([], [], q, log0, log2)
  {
    hide OnlyLimits;
  }

  // ---- the run read from its input ------------------------------------------------------------

  // Once the batch has run: every lane and hooks entry reads as its remote asks,
  // the rest stands.  It is refused iff some limit or CCV config would be.
  ghost predicate ReadsAsAsked(before: World, after: World, timelock: Option<Address>, remotes: seq<Remote>,
                               finality: uint32, q: seq<Op>)
  {
    var end := Run(after, Or(timelock, ""), q);
    && (end.Some? <==> forall rc | rc in remotes :: SuppliedSane(rc) && HookAdmitted(before, rc))
    && (end.Some? ==>
          && end.value.roles == before.roles
          && end.value.finality == WantedFinality(before, finality)
          && (forall rc | rc in remotes :: RemoteReads(before, end.value, rc))
          && (forall s | (forall rc | rc in remotes :: rc.sel != s) ::
                LaneAt(end.value, s) == LaneAt(before, s) && HookAt(end.value, s) == HookAt(before, s)))
  }

  ghost predicate RemoteReads(before: World, end: World, rc: Remote)
  {
    var lane := LaneAt(end, rc.sel);
    && lane.Some? && rc.native.Some?
    && (rc.native.value <= WIRE ==> LaneReads(LaneAt(before, rc.sel), rc, lane.value))
    && (if before.roles.hooksOwner.None? then HookAt(end, rc.sel) == HookAt(before, rc.sel)
        else HookReads(HookAt(before, rc.sel), rc, HookAt(end, rc.sel)))
  }

  lemma DoneReads(before: World, after: World, timelock: Option<Address>, remotes: seq<Remote>, finality: uint32,
                  q: seq<Op>)
    requires ConfigurationDone(before, after, timelock, remotes, finality, q)
    ensures ReadsAsAsked(before, after, timelock, remotes, finality, q)
  {
    hide HookReads, HookAdmitted, LaneReads, HookGoal, WantLane, Run, SuppliedSane, Checked, RemoteReads;
    var end := Run(after, Or(timelock, ""), q);
    forall rc | rc in remotes ensures HookGoal(before, rc).Some? <==> HookAdmitted(before, rc) {
      HookGoalReads(before, rc);
    }
    assert forall rc | rc in remotes :: Admissible(before, rc) <==> SuppliedSane(rc) && HookAdmitted(before, rc);
    if end.Some? {
      forall rc | rc in remotes ensures RemoteReads(before, end.value, rc) {
        assert Checked(LaneAt(before, rc.sel), rc) && HookGoal(before, rc) == Some(HookAt(end.value, rc.sel));
        RemoteDone(before, end.value, rc);
      }
    }
  }

  lemma RemoteDone(before: World, end: World, rc: Remote)
    requires Checked(LaneAt(before, rc.sel), rc) && HookGoal(before, rc) == Some(HookAt(end, rc.sel))
    requires LaneAt(end, rc.sel) == Some(WantLane(LaneAt(before, rc.sel), rc))
    ensures RemoteReads(before, end, rc)
  {
    hide HookReads, HookAdmitted, LaneReads, HookGoal, WantLane;
    HookGoalReads(before, rc);
    if rc.native.value <= WIRE { WantedLaneReads(LaneAt(before, rc.sel), rc); }
  }

  // configureTokenForTransfers.  `remotes` is the remote-chain map in its iteration order.
  method ConfigureTokenForTransfers(chain: Chain, deployer: Address, timelock: Option<Address>,
                                    remotes: seq<Remote>, finality: uint32)
    returns (r: Result<seq<BatchOp>, string>)
    requires timelock != Some(deployer) && DistinctRemotes(remotes) && SaneWorld(chain.world)
    modifies chain
    ensures r.Ok? <==> RunSucceeds(old(chain.world), deployer, timelock, remotes, finality)
    ensures r.Ok? ==> ConfigurationDone(old(chain.world), chain.world, timelock, remotes, finality, Queued(r.value))
    ensures r.Ok? ==> ReadsAsAsked(old(chain.world), chain.world, timelock, remotes, finality, Queued(r.value))
    ensures r.Ok? && (forall rc | rc in remotes :: Settled(old(chain.world), rc)) ==>
              LimitsOnly([], [], Queued(r.value), old(chain.log), chain.log)
  {
    hide ProgressOn, ConfigurationDone, AllChecked, Settled, OnlyLimits, RemoteRuns, FinalityRuns, SaneWorld,
         DistinctRemotes, LimitsOnly, LogOnlyLimits, Queued, AllSettled, ReadsAsAsked;
    ghost var before, log0 := chain.world, chain.log;
    var unpriced := NoFeeConfig(remotes);
    if !unpriced { return Err("pool-level token transfer fee config is not supported"); }
    var roles := chain.world.roles;
    var poolRouter := new Router(chain, roles.owner, deployer, timelock);
    var aphRouter: Router? := null;
    if roles.hooksOwner.Some? {
      aphRouter := new Router(chain, roles.hooksOwner.value, deployer, timelock);
    }
    var rateOps := ConfigureRemotes(poolRouter, aphRouter, remotes, before);
    if rateOps.Err? { return Err(rateOps.error); }
    if forall rc | rc in remotes :: Settled(before, rc) { EachSettled(before, remotes); }
    ghost var laneQ, hookQ, log1 := poolRouter.writes, HookQueue(aphRouter), chain.log;
    r := FinishConfiguration(poolRouter, aphRouter, before, remotes, rateOps.value, finality);
    if r.Ok? { DoneReads(before, chain.world, timelock, remotes, finality, Queued(r.value)); }
    if r.Ok? && AllSettled(before, remotes) {
      SettledRun(laneQ, hookQ, Queued(rateOps.value), Queued(r.value), log0, log1, chain.log);
    }
  }

  // After a configuration has been executed in full, every remote is settled:
  // by ConfigureTokenForTransfers a rerun then writes nothing but supplied limits.
  lemma ConfiguredIsSettled(before: World, after: World, timelock: Option<Address>, remotes: seq<Remote>,
                            finality: uint32, q: seq<Op>)
    requires ConfigurationDone(before, after, timelock, remotes, finality, q)
    requires Run(after, Or(timelock, ""), q).Some?
    ensures forall rc | rc in remotes :: Settled(Run(after, Or(timelock, ""), q).value, rc)
  {
    var end := Run(after, Or(timelock, ""), q).value;
    forall rc | rc in remotes ensures Settled(end, rc) {
      WantedIsSettled(LaneAt(before, rc.sel), rc);
      WantedHookIsSettled(HookAt(before, rc.sel), rc);
    }
  }

  // The world a finished configuration leaves is one the same configuration runs on.
  lemma RerunSucceeds(before: World, after: World, deployer: Address, timelock: Option<Address>,
                      remotes: seq<Remote>, finality: uint32, q: seq<Op>)
    requires SaneWorld(before) && RunSucceeds(before, deployer, timelock, remotes, finality)
    requires ConfigurationDone(before, after, timelock, remotes, finality, q)
    requires Run(after, Or(timelock, ""), q).Some?
    ensures var end := Run(after, Or(timelock, ""), q).value;
            SaneWorld(end) && RunSucceeds(end, deployer, timelock, remotes, finality)
  {
    var end := Run(after, Or(timelock, ""), q).value;
    forall rc | rc in remotes ensures RemoteRuns(end, deployer, timelock, rc) {
      assert RemoteRuns(before, deployer, timelock, rc) && Admissible(before, rc);
      RemoteRunsAgain(before, end, deployer, timelock, rc);
    }
    forall s | s in end.lanes ensures SaneLane(end.lanes[s]) {
      if rc :| rc in remotes && rc.sel == s {
        assert Admissible(before, rc) && LaneAt(end, s) == Some(WantLane(LaneAt(before, s), rc));
        WantedIsSane(before, rc);
      } else {
        assert LaneAt(end, s) == LaneAt(before, s);
      }
    }
  }

  lemma RemoteRunsAgain(before: World, end: World, deployer: Address, timelock: Option<Address>, rc: Remote)
    requires RemoteRuns(before, deployer, timelock, rc) && Admissible(before, rc) && end.roles == before.roles
    requires LaneAt(end, rc.sel) == Some(WantLane(LaneAt(before, rc.sel), rc))
    requires HookGoal(before, rc) == Some(HookAt(end, rc.sel))
    ensures RemoteRuns(end, deployer, timelock, rc)
  {
    hide LaneRuns, WantLane, HookSettled, SuppliedSane, CcvValid, CcvArg;
    LaneRunsAgain(before, end, deployer, timelock, rc);
    WantedHookIsSettled(HookAt(before, rc.sel), rc);
  }

  lemma WantedIsSane(w: World, rc: Remote)
    requires SaneWorld(w) && SuppliedSane(rc)
    ensures SaneLane(WantLane(LaneAt(w, rc.sel), rc))
  {
    assert Sane(UNLIMITED);
  }

  // And running it again, to the end of its own batch, leaves every entry as it is.
  lemma RerunChangesNothing(before: World, end: World, again: World, remotes: seq<Remote>, finality: uint32)
    requires Configured(before, end, remotes, finality) && Configured(end, again, remotes, finality)
    requires forall rc | rc in remotes :: Checked(LaneAt(before, rc.sel), rc)
    ensures again.roles == end.roles && again.finality == end.finality
    ensures forall s :: LaneAt(again, s) == LaneAt(end, s) && HookAt(again, s) == HookAt(end, s)
  {
    hide WantLane, HookGoal, Checked;
    forall s ensures LaneAt(again, s) == LaneAt(end, s) && HookAt(again, s) == HookAt(end, s) {
      if rc :| rc in remotes && rc.sel == s {
        assert LaneAt(end, rc.sel) == Some(WantLane(LaneAt(before, rc.sel), rc));
        assert LaneAt(again, rc.sel) == Some(WantLane(LaneAt(end, rc.sel), rc));
        WantedAgain(LaneAt(before, rc.sel), rc);
        WantedHookAgain(before, end, rc);
      }
    }
  }

  lemma WantedHookAgain(before: World, end: World, rc: Remote)
    requires end.roles == before.roles && HookGoal(before, rc) == Some(HookAt(end, rc.sel))
    ensures HookGoal(end, rc) == Some(HookAt(end, rc.sel))
  {
    hide HookSettled, CcvValid, CcvArg;
    WantedHookIsSettled(HookAt(before, rc.sel), rc);
  }
}
