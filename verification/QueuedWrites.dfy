/**
 Three queues built up remote by remote (lane writes, hooks writes, dependent
 rate-limit writes) and run one after the other.  A goal is where an entry must
 end when the queues run, or None when they must be refused on it.
 */
module QueuedWrites {
  import opened Wrappers
  import opened Words
  import opened TokenPool

  type LaneGoals = map<Selector, Option<Option<Lane>>>
  type HookGoals = map<Selector, Option<Option<Ccv>>>

  // The writes of one lane: what was executed changed this lane alone, and the
  // queued rest takes it from there to its goal.
  ghost predicate LaneQueued(before: World, after: World, timelock: Option<Address>, sel: Selector, q: seq<Op>,
                             goal: Option<Option<Lane>>)
  {
    && after.roles == before.roles && after.finality == before.finality && after.hooks == before.hooks
    && (forall s | s != sel :: LaneAt(after, s) == LaneAt(before, s))
    && (forall op | op in q :: op.OnLane? && op.sel == sel)
    && (q != [] ==> timelock.Some?)
    && RunLane(after.roles, Or(timelock, ""), LaneAt(after, sel), q, sel) == goal
  }

  ghost predicate HookQueued(before: World, after: World, timelock: Option<Address>, sel: Selector, q: seq<Op>,
                             goal: Option<Option<Ccv>>)
  {
    && after.roles == before.roles && after.finality == before.finality && after.lanes == before.lanes
    && (forall s | s != sel :: HookAt(after, s) == HookAt(before, s))
    && (forall op | op in q :: op.ApplyCcv? && op.sel == sel)
    && (q != [] ==> timelock.Some?)
    && RunHooks(after.roles, Or(timelock, ""), HookAt(after, sel), q, sel) == goal
  }

  ghost predicate Untouched(before: World, w: World, s: Selector, laneQ: seq<Op>, hookQ: seq<Op>)
  {
    && LaneAt(w, s) == LaneAt(before, s) && HookAt(w, s) == HookAt(before, s)
    && AvoidsLane(laneQ, s) && AvoidsHook(hookQ, s)
  }

  ghost predicate LanesMeet(w: World, timelock: Option<Address>, laneGoals: LaneGoals, q: seq<Op>)
  {
    forall s | s in laneGoals :: RunLane(w.roles, Or(timelock, ""), LaneAt(w, s), q, s) == laneGoals[s]
  }

  ghost predicate HooksMeet(w: World, timelock: Option<Address>, hookGoals: HookGoals, q: seq<Op>)
  {
    forall s | s in hookGoals :: RunHooks(w.roles, Or(timelock, ""), HookAt(w, s), q, s) == hookGoals[s]
  }

  ghost predicate RestUntouched(before: World, w: World, done: set<Selector>, laneQ: seq<Op>, hookQ: seq<Op>)
  {
    forall s | s !in done :: Untouched(before, w, s, laneQ, hookQ)
  }

  // The entries with a goal reach it once the queues run; the others are as
  // before and no queued write concerns them.
  ghost predicate Progress(before: World, w: World, timelock: Option<Address>, laneGoals: LaneGoals,
                           hookGoals: HookGoals, poolQ: seq<Op>, hookQ: seq<Op>, rateQ: seq<Op>)
  {
    && laneGoals.Keys == hookGoals.Keys
    && w.roles == before.roles && w.finality == before.finality
    && (poolQ != [] || hookQ != [] || rateQ != [] ==> timelock.Some?)
    && (forall op | op in poolQ || op in rateQ :: op.OnLane?)
    && (forall op | op in hookQ :: op.ApplyCcv?)
    && LanesMeet(w, timelock, laneGoals, poolQ + rateQ)
    && HooksMeet(w, timelock, hookGoals, hookQ)
    && RestUntouched(before, w, laneGoals.Keys, poolQ + rateQ, hookQ)
  }

  lemma ProgressEmpty(w: World, timelock: Option<Address>)
    ensures Progress(w, w, timelock, map[], map[], [], [], [])
  {
  }

  // One more remote: its own writes join the three queues and disturb no other.
  lemma ProgressStep(before: World, w: World, mid: World, after: World, timelock: Option<Address>,
                     laneGoals: LaneGoals, hookGoals: HookGoals, poolQ: seq<Op>, hookQ: seq<Op>, rateQ: seq<Op>,
                     sel: Selector, laneGoal: Option<Option<Lane>>, hookGoal: Option<Option<Ccv>>, pw: seq<Op>,
                     hw: seq<Op>, rw: seq<Op>)
    requires Progress(before, w, timelock, laneGoals, hookGoals, poolQ, hookQ, rateQ) && sel !in laneGoals
    requires HookQueued(w, mid, timelock, sel, hw, hookGoal)
    requires LaneQueued(mid, after, timelock, sel, pw + rw, laneGoal)
    ensures Progress(before, after, timelock, laneGoals[sel := laneGoal], hookGoals[sel := hookGoal],
                     poolQ + pw, hookQ + hw, rateQ + rw)
  {
    StillUntouched(before, w, laneGoals.Keys, poolQ + rateQ, hookQ, sel);
    BothParts(pw, rw);
    hide LanesMeet, HooksMeet, RestUntouched, RunLane, RunHooks, AvoidsLane, AvoidsHook;
    SameLanes(w, mid, timelock, laneGoals, poolQ + rateQ);
    LanesStep(mid, after, timelock, laneGoals, poolQ, rateQ, sel, laneGoal, pw, rw);
    HooksStep(w, mid, timelock, hookGoals, hookQ, sel, hookGoal, hw);
    SameHooks(mid, after, timelock, hookGoals[sel := hookGoal], hookQ + hw);
    UntouchedStep(before, w, after, laneGoals.Keys, poolQ, hookQ, rateQ, sel, pw, hw, rw);
    assert laneGoals[sel := laneGoal].Keys == laneGoals.Keys + {sel};
    assert hookGoals[sel := hookGoal].Keys == hookGoals.Keys + {sel};
  }

  lemma StillUntouched(before: World, w: World, done: set<Selector>, laneQ: seq<Op>, hookQ: seq<Op>, sel: Selector)
    requires RestUntouched(before, w, done, laneQ, hookQ) && sel !in done
    ensures AvoidsLane(laneQ, sel) && AvoidsHook(hookQ, sel)
  {
    assert Untouched(before, w, sel, laneQ, hookQ);
  }

  lemma BothParts(a: seq<Op>, b: seq<Op>)
    ensures forall op :: op in a || op in b ==> op in a + b
    ensures a != [] || b != [] ==> a + b != []
  {
  }

  lemma SameLanes(w: World, mid: World, timelock: Option<Address>, laneGoals: LaneGoals, q: seq<Op>)
    requires mid.lanes == w.lanes && mid.roles == w.roles
    ensures LanesMeet(w, timelock, laneGoals, q) <==> LanesMeet(mid, timelock, laneGoals, q)
  {
    assert forall s :: LaneAt(mid, s) == LaneAt(w, s);
  }

  lemma SameHooks(mid: World, after: World, timelock: Option<Address>, hookGoals: HookGoals, q: seq<Op>)
    requires mid.hooks == after.hooks && mid.roles == after.roles
    ensures HooksMeet(mid, timelock, hookGoals, q) <==> HooksMeet(after, timelock, hookGoals, q)
  {
    assert forall s :: HookAt(mid, s) == HookAt(after, s);
  }

  lemma LanesStep(mid: World, after: World, timelock: Option<Address>, laneGoals: LaneGoals, poolQ: seq<Op>,
                  rateQ: seq<Op>, sel: Selector, laneGoal: Option<Option<Lane>>, pw: seq<Op>, rw: seq<Op>)
    requires LanesMeet(mid, timelock, laneGoals, poolQ + rateQ)
    requires LaneQueued(mid, after, timelock, sel, pw + rw, laneGoal)
    requires sel !in laneGoals && AvoidsLane(poolQ + rateQ, sel)
    ensures LanesMeet(after, timelock, laneGoals[sel := laneGoal], (poolQ + pw) + (rateQ + rw))
  {
    forall s | s in laneGoals[sel := laneGoal]
      ensures RunLane(after.roles, Or(timelock, ""), LaneAt(after, s), (poolQ + pw) + (rateQ + rw), s) ==
              laneGoals[sel := laneGoal][s]
    {
      QueuesApart(after.roles, Or(timelock, ""), LaneAt(after, s), poolQ, pw, rateQ, rw, s, sel);
    }
  }

  lemma HooksStep(w: World, mid: World, timelock: Option<Address>, hookGoals: HookGoals, hookQ: seq<Op>,
                  sel: Selector, hookGoal: Option<Option<Ccv>>, hw: seq<Op>)
    requires HooksMeet(w, timelock, hookGoals, hookQ)
    requires HookQueued(w, mid, timelock, sel, hw, hookGoal)
    requires sel !in hookGoals && AvoidsHook(hookQ, sel)
    ensures HooksMeet(mid, timelock, hookGoals[sel := hookGoal], hookQ + hw)
  {
    forall s | s in hookGoals[sel := hookGoal]
      ensures RunHooks(mid.roles, Or(timelock, ""), HookAt(mid, s), hookQ + hw, s) == hookGoals[sel := hookGoal][s]
    {
      HooksApart(mid.roles, Or(timelock, ""), HookAt(mid, s), hookQ, hw, s, sel);
    }
  }

  lemma UntouchedStep(before: World, w: World, after: World, done: set<Selector>, poolQ: seq<Op>, hookQ: seq<Op>,
                      rateQ: seq<Op>, sel: Selector, pw: seq<Op>, hw: seq<Op>, rw: seq<Op>)
    requires RestUntouched(before, w, done, poolQ + rateQ, hookQ)
    requires forall s | s != sel :: LaneAt(after, s) == LaneAt(w, s) && HookAt(after, s) == HookAt(w, s)
    requires forall op | op in pw || op in rw :: op.OnLane? && op.sel == sel
    requires forall op | op in hw :: op.ApplyCcv? && op.sel == sel
    ensures RestUntouched(before, after, done + {sel}, (poolQ + pw) + (rateQ + rw), hookQ + hw)
  {
    forall s | s !in done + {sel}
      ensures Untouched(before, after, s, (poolQ + pw) + (rateQ + rw), hookQ + hw)
    {
      assert Untouched(before, w, s, poolQ + rateQ, hookQ);
      assert forall op :: op in (poolQ + pw) + (rateQ + rw) ==> op in poolQ + rateQ || op in pw || op in rw;
    }
  }

  // Writes for lane `mine` spliced into both queues: that lane sees only them,
  // every other lane sees the old queues.
  lemma QueuesApart(r: Roles, invoker: Address, lane: Option<Lane>, poolQ: seq<Op>, pw: seq<Op>, rateQ: seq<Op>,
                    rw: seq<Op>, sel: Selector, mine: Selector)
    requires forall op | op in pw + rw :: op.OnLane? && op.sel == mine
    ensures sel != mine ==>
              RunLane(r, invoker, lane, (poolQ + pw) + (rateQ + rw), sel) ==
              RunLane(r, invoker, lane, poolQ + rateQ, sel)
    ensures sel == mine && AvoidsLane(poolQ + rateQ, sel) ==>
              RunLane(r, invoker, lane, (poolQ + pw) + (rateQ + rw), sel) == RunLane(r, invoker, lane, pw + rw, sel)
  {
    assert forall op :: op in pw || op in rw ==> op in pw + rw;
    assert forall op :: op in poolQ || op in rateQ ==> op in poolQ + rateQ;
    RunLaneConcat(r, invoker, lane, poolQ + pw, rateQ + rw, sel);
    RunLaneConcat(r, invoker, lane, poolQ, pw, sel);
    RunLaneConcat(r, invoker, lane, poolQ, rateQ, sel);
    RunLaneConcat(r, invoker, lane, pw, rw, sel);
    var m := RunLane(r, invoker, lane, poolQ, sel);
    if m.Some? {
      RunLaneConcat(r, invoker, m.value, pw, [], sel);
      var k := RunLane(r, invoker, m.value, pw, sel);
      if k.Some? {
        RunLaneConcat(r, invoker, k.value, rateQ, rw, sel);
        var e := RunLane(r, invoker, k.value, rateQ, sel);
        if e.Some? { RunLaneConcat(r, invoker, e.value, rw, [], sel); }
      }
    }
  }

  lemma HooksApart(r: Roles, invoker: Address, hook: Option<Ccv>, hookQ: seq<Op>, hw: seq<Op>, sel: Selector,
                   mine: Selector)
    requires forall op | op in hw :: op.ApplyCcv? && op.sel == mine
    ensures sel != mine ==> RunHooks(r, invoker, hook, hookQ + hw, sel) == RunHooks(r, invoker, hook, hookQ, sel)
    ensures sel == mine && AvoidsHook(hookQ, sel) ==>
              RunHooks(r, invoker, hook, hookQ + hw, sel) == RunHooks(r, invoker, hook, hw, sel)
  {
    RunHooksConcat(r, invoker, hook, hookQ, hw, sel);
    var m := RunHooks(r, invoker, hook, hookQ, sel);
    if m.Some? { RunHooksConcat(r, invoker, m.value, hw, [], sel); }
  }

  // Where everything ends: each goal reached, the rest as before.
  ghost predicate GoalsReached(before: World, end: World, laneGoals: LaneGoals, hookGoals: HookGoals)
  {
    && end.roles == before.roles
    && (forall s | s in laneGoals :: laneGoals[s] == Some(LaneAt(end, s)))
    && (forall s | s in hookGoals :: hookGoals[s] == Some(HookAt(end, s)))
    && (forall s | s !in laneGoals :: LaneAt(end, s) == LaneAt(before, s) && HookAt(end, s) == HookAt(before, s))
  }

  // No goal is a refusal.
  predicate NoRefusal(laneGoals: LaneGoals, hookGoals: HookGoals)
  {
    && (forall s | s in laneGoals :: laneGoals[s].Some?)
    && (forall s | s in hookGoals :: hookGoals[s].Some?)
  }

  // The batch is accepted iff no goal is a refusal, and then every goal is reached.
  ghost predicate RunReaches(before: World, after: World, timelock: Option<Address>, q: seq<Op>,
                             laneGoals: LaneGoals, hookGoals: HookGoals, finality: uint32)
  {
    var end := Run(after, Or(timelock, ""), q);
    && (end.Some? <==> NoRefusal(laneGoals, hookGoals))
    && (end.Some? ==> GoalsReached(before, end.value, laneGoals, hookGoals) && end.value.finality == finality)
  }

  // The queues and a trailing finality write, run in order.
  lemma QueuesFinish(before: World, w: World, after: World, timelock: Option<Address>, laneGoals: LaneGoals,
                     hookGoals: HookGoals, poolQ: seq<Op>, hookQ: seq<Op>, rateQ: seq<Op>, finalityQ: seq<Op>,
                     finality: uint32)
    requires Progress(before, w, timelock, laneGoals, hookGoals, poolQ, hookQ, rateQ)
    requires after.roles == w.roles && after.hooks == w.hooks
    requires forall s :: LaneAt(after, s) == LaneAt(w, s)
    requires forall s, l :: RunLane(after.roles, Or(timelock, ""), l, finalityQ, s) == Some(l)
    requires forall op | op in finalityQ :: !op.ApplyCcv?
    requires RunFinality(after.roles, Or(timelock, ""), after.finality, finalityQ) == Some(finality)
    ensures RunReaches(before, after, timelock, poolQ + hookQ + (rateQ + finalityQ), laneGoals, hookGoals, finality)
  {
    var tl := Or(timelock, "");
    var q := poolQ + hookQ + (rateQ + finalityQ);
    RunProjects(after, tl, q);
    FinalityAlone(after.roles, tl, after.finality, poolQ, hookQ, rateQ, finalityQ);
    forall s
      ensures RunLane(after.roles, tl, LaneAt(after, s), q, s) ==
              if s in laneGoals then laneGoals[s] else Some(LaneAt(before, s))
      ensures RunHooks(after.roles, tl, HookAt(after, s), q, s) ==
              if s in hookGoals then hookGoals[s] else Some(HookAt(before, s))
    {
      LanesAlone(after.roles, tl, LaneAt(after, s), poolQ, hookQ, rateQ, finalityQ, s);
      HooksAlone(after.roles, tl, HookAt(after, s), poolQ, hookQ, rateQ, finalityQ, s);
      if s !in laneGoals {
        assert Untouched(before, w, s, poolQ + rateQ, hookQ);
        RunLaneConcat(w.roles, tl, LaneAt(w, s), poolQ + rateQ, [], s);
        RunHooksConcat(w.roles, tl, HookAt(w, s), hookQ, [], s);
      }
    }
  }

  lemma FinalityAlone(r: Roles, invoker: Address, v: uint32, poolQ: seq<Op>, hookQ: seq<Op>, rateQ: seq<Op>,
                      finalityQ: seq<Op>)
    requires forall op | op in poolQ || op in rateQ :: op.OnLane?
    requires forall op | op in hookQ :: op.ApplyCcv?
    ensures RunFinality(r, invoker, v, poolQ + hookQ + (rateQ + finalityQ)) == RunFinality(r, invoker, v, finalityQ)
  {
    RunFinalityConcat(r, invoker, v, poolQ + hookQ, rateQ + finalityQ);
    RunFinalityConcat(r, invoker, v, rateQ, finalityQ);
  }

  lemma LanesAlone(r: Roles, invoker: Address, lane: Option<Lane>, poolQ: seq<Op>, hookQ: seq<Op>, rateQ: seq<Op>,
                   finalityQ: seq<Op>, s: Selector)
    requires forall op | op in hookQ :: op.ApplyCcv?
    requires forall l :: RunLane(r, invoker, l, finalityQ, s) == Some(l)
    ensures RunLane(r, invoker, lane, poolQ + hookQ + (rateQ + finalityQ), s) ==
            RunLane(r, invoker, lane, poolQ + rateQ, s)
  {
    RunLaneConcat(r, invoker, lane, poolQ + hookQ, rateQ + finalityQ, s);
    RunLaneConcat(r, invoker, lane, poolQ, hookQ, s);
    RunLaneConcat(r, invoker, lane, poolQ, rateQ, s);
    var m := RunLane(r, invoker, lane, poolQ, s);
    if m.Some? {
      RunLaneConcat(r, invoker, m.value, hookQ, [], s);
      RunLaneConcat(r, invoker, m.value, rateQ, finalityQ, s);
    }
  }

  lemma HooksAlone(r: Roles, invoker: Address, hook: Option<Ccv>, poolQ: seq<Op>, hookQ: seq<Op>, rateQ: seq<Op>,
                   finalityQ: seq<Op>, s: Selector)
    requires forall op | op in poolQ || op in rateQ || op in finalityQ :: !op.ApplyCcv?
    ensures RunHooks(r, invoker, hook, poolQ + hookQ + (rateQ + finalityQ), s) == RunHooks(r, invoker, hook, hookQ, s)
  {
    RunHooksConcat(r, invoker, hook, poolQ + hookQ, rateQ + finalityQ, s);
    RunHooksConcat(r, invoker, hook, poolQ, hookQ, s);
    var m := RunHooks(r, invoker, hook, hookQ, s);
    if m.Some? { RunHooksConcat(r, invoker, m.value, rateQ + finalityQ, [], s); }
  }
}
