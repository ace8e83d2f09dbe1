/**
 The token pool and its AdvancedPoolHooks as a state machine: the owner-gated
 entrypoints the planner writes to, with the checks the contracts make
 (contracts/common/pool, contracts/pools/advanced-pool-hooks).  A refused
 entrypoint changes nothing and is None.
 */
module TokenPool {
  import opened Wrappers
  import opened Words
  import opened Xdr
  import opened WireBytes

  type Address = string
  type Selector = uint64

  datatype Limit = Limit(enabled: bool, capacity: UInt128Parts, rate: UInt128Parts)
  datatype Bucket = Bucket(outbound: Limit, inbound: Limit)

  const DISABLED: Limit := Limit(false, UInt128Parts(0, 0), UInt128Parts(0, 0))
  const UNLIMITED: Bucket := Bucket(DISABLED, DISABLED)

  datatype Lane = Lane(token: Bytes, pools: seq<Bytes>, standard: Bucket, fast: Bucket)

  datatype Ccv = Ccv(outbound: seq<Address>, outDefaults: bool, inbound: seq<Address>, inDefaults: bool,
                     thresholdOut: seq<Address>, thresholdIn: seq<Address>)

  datatype Roles = Roles(owner: Address, rateAdmin: Option<Address>, hooksOwner: Option<Address>)

  datatype World = World(roles: Roles, finality: uint32, lanes: map<Selector, Lane>, hooks: map<Selector, Ccv>)

  // The entrypoints that write one lane.
  datatype LaneWrite =
    // apply_chain_updates adding this lane, after its own removal when `replace`
    | ApplyChainUpdates(token: Bytes, pools: seq<Bytes>, standard: Bucket, replace: bool)
    | AddRemotePool(pool: Bytes)
    | RemoveRemotePool(pool: Bytes)
    | SetRateLimit(caller: Address, bucket: Bucket, fast: bool)

  datatype Op =
    | OnLane(sel: Selector, write: LaneWrite)
    | ApplyCcv(sel: Selector, config: Ccv)
    | SetAllowedFinality(value: uint32)

  predicate AtMost(a: UInt128Parts, b: UInt128Parts) { a.hi < b.hi || (a.hi == b.hi && a.lo <= b.lo) }

  // rate_limit::set_config
  predicate SaneLimit(l: Limit)
  {
    if l.enabled then AtMost(l.rate, l.capacity)
    else l.rate == UInt128Parts(0, 0) && l.capacity == UInt128Parts(0, 0)
  }

  predicate Sane(b: Bucket) { SaneLimit(b.outbound) && SaneLimit(b.inbound) }

  predicate NoDuplicates(s: seq<Address>) { forall i, j | 0 <= i < j < |s| :: s[i] != s[j] }

  // CCVConfigArg::validate
  predicate CcvValid(c: Ccv)
  {
    && NoDuplicates(c.outbound + c.thresholdOut)
    && NoDuplicates(c.inbound + c.thresholdIn)
    && (c.thresholdOut != [] ==> c.outbound != [] || c.outDefaults)
    && (c.thresholdIn != [] ==> c.inbound != [] || c.inDefaults)
  }

  predicate HasBase(c: Ccv) { c.outbound != [] || c.outDefaults || c.inbound != [] || c.inDefaults }

  function LaneAt(w: World, sel: Selector): Option<Lane> { if sel in w.lanes then Some(w.lanes[sel]) else None }
  function HookAt(w: World, sel: Selector): Option<Ccv> { if sel in w.hooks then Some(w.hooks[sel]) else None }

  function WithLimits(l: Lane, bucket: Bucket, fast: bool): Lane
  {
    if fast then l.(fast := bucket) else l.(standard := bucket)
  }

  function IndexOf(s: seq<Bytes>, x: Bytes): (i: nat)
    ensures i <= |s| && (i < |s| ==> s[i] == x) && x !in s[..i]
  {
    if s == [] then 0 else if s[0] == x then 0 else 1 + IndexOf(s[1..], x)
  }

  // One lane under one entrypoint.
  function LaneStep(r: Roles, invoker: Address, lane: Option<Lane>, write: LaneWrite): Option<Lane>
  {
    match write
    case ApplyChainUpdates(token, pools, standard, replace) =>
      if invoker == r.owner && pools != [] && token != [] && [] !in pools && Sane(standard) then
        // set_config leaves the fast-finality buckets alone; only a removal drops them
        var fast := if replace || lane.None? then UNLIMITED else lane.value.fast;
        Some(Lane(token, pools, standard, fast))
      else None
    case AddRemotePool(p) =>
      if invoker == r.owner && lane.Some? then
        Some(if p in lane.value.pools then lane.value else lane.value.(pools := lane.value.pools + [p]))
      else None
    case RemoveRemotePool(p) =>
      if invoker == r.owner && lane.Some? && p in lane.value.pools then
        var i := IndexOf(lane.value.pools, p);
        Some(lane.value.(pools := lane.value.pools[..i] + lane.value.pools[i + 1..]))
      else None
    case SetRateLimit(caller, bucket, fast) =>
      if invoker == caller && (caller == r.owner || Some(caller) == r.rateAdmin) && lane.Some? && Sane(bucket) then
        Some(WithLimits(lane.value, bucket, fast))
      else None
  }

  // One hooks entry: a config without a base in either direction deletes it.
  function HookStep(r: Roles, invoker: Address, config: Ccv): Option<Option<Ccv>>
  {
    if Some(invoker) == r.hooksOwner && CcvValid(config) then
      Some(if HasBase(config) then Some(config) else None)
    else None
  }

  function Step(w: World, invoker: Address, op: Op): Option<World>
  {
    match op
    case SetAllowedFinality(v) => if invoker == w.roles.owner then Some(w.(finality := v)) else None
    case ApplyCcv(sel, config) =>
      (match HookStep(w.roles, invoker, config)
       case None => None
       case Some(None) => Some(w.(hooks := w.hooks - {sel}))
       case Some(Some(c)) => Some(w.(hooks := w.hooks[sel := c])))
    case OnLane(sel, write) =>
      match LaneStep(w.roles, invoker, LaneAt(w, sel), write)
      case None => None
      case Some(l) => Some(w.(lanes := w.lanes[sel := l]))
  }

  // A batch runs in order and stops at the first refusal.
  function Run(w: World, invoker: Address, ops: seq<Op>): Option<World>
    decreases ops
  {
    if ops == [] then Some(w)
    else
      match Step(w, invoker, ops[0])
      case None => None
      case Some(next) => Run(next, invoker, ops[1..])
  }

  lemma {:induction false} RunConcat(w: World, invoker: Address, a: seq<Op>, b: seq<Op>)
    ensures Run(w, invoker, a + b) ==
            (match Run(w, invoker, a) case None => None case Some(m) => Run(m, invoker, b))
    decreases a
  {
    if a == [] {
      assert a + b == b;
    } else {
      assert (a + b)[1..] == a[1..] + b;
      var s := Step(w, invoker, a[0]);
      if s.Some? { RunConcat(s.value, invoker, a[1..], b); }
    }
  }

  // What every entrypoint keeps: stored limits are sane.
  predicate SaneLane(l: Lane) { Sane(l.standard) && Sane(l.fast) }
  predicate SaneWorld(w: World) { forall sel | sel in w.lanes :: SaneLane(w.lanes[sel]) }

  lemma {:induction false} RunKeepsSane(w: World, invoker: Address, ops: seq<Op>)
    requires SaneWorld(w) && Run(w, invoker, ops).Some?
    ensures SaneWorld(Run(w, invoker, ops).value)
    ensures Run(w, invoker, ops).value.roles == w.roles
    decreases ops
  {
    if ops != [] {
      StepKeepsSane(w, invoker, ops[0]);
      RunKeepsSane(Step(w, invoker, ops[0]).value, invoker, ops[1..]);
    }
  }

  lemma StepKeepsSane(w: World, invoker: Address, op: Op)
    requires SaneWorld(w) && Step(w, invoker, op).Some?
    ensures SaneWorld(Step(w, invoker, op).value)
    ensures Step(w, invoker, op).value.roles == w.roles
  {
    if op.OnLane? {
      assert Sane(UNLIMITED);
      var l := LaneStep(w.roles, invoker, LaneAt(w, op.sel), op.write).value;
      if op.sel in w.lanes { assert SaneLane(w.lanes[op.sel]); }
      assert SaneLane(l);
    }
  }

  // Stored hooks entries always have a base and passed the contract's check.
  predicate SoundHooks(w: World) { forall sel | sel in w.hooks :: HasBase(w.hooks[sel]) && CcvValid(w.hooks[sel]) }

  lemma {:induction false} RunKeepsHooks(w: World, invoker: Address, ops: seq<Op>)
    requires SoundHooks(w) && Run(w, invoker, ops).Some?
    ensures SoundHooks(Run(w, invoker, ops).value)
    decreases ops
  {
    hide CcvValid, HasBase, LaneStep;
    if ops != [] { RunKeepsHooks(Step(w, invoker, ops[0]).value, invoker, ops[1..]); }
  }

  // No list names an address twice, with its threshold list counted in, and a
  // threshold list has a base below it.
  lemma CcvValidReads(c: Ccv)
    ensures CcvValid(c) <==>
              && (forall a :: multiset(c.outbound)[a] + multiset(c.thresholdOut)[a] <= 1)
              && (forall a :: multiset(c.inbound)[a] + multiset(c.thresholdIn)[a] <= 1)
              && (c.thresholdOut == [] || c.outDefaults || c.outbound != [])
              && (c.thresholdIn == [] || c.inDefaults || c.inbound != [])
  {
    DistinctCounts(c.outbound + c.thresholdOut);
    DistinctCounts(c.inbound + c.thresholdIn);
    assert forall a ::
             multiset(c.outbound + c.thresholdOut)[a] == multiset(c.outbound)[a] + multiset(c.thresholdOut)[a];
    assert forall a :: multiset(c.inbound + c.thresholdIn)[a] == multiset(c.inbound)[a] + multiset(c.thresholdIn)[a];
  }

  lemma {:induction false} DistinctCounts(s: seq<Address>)
    ensures NoDuplicates(s) <==> forall a :: multiset(s)[a] <= 1
  {
    if s != [] {
      var init, last := s[..|s| - 1], s[|s| - 1];
      DistinctCounts(init);
      DistinctGrows(init, last);
      assert s == init + [last];
      assert forall a :: multiset(s)[a] == multiset(init)[a] + (if a == last then 1 else 0);
      assert multiset(s)[last] == multiset(init)[last] + 1;
    }
  }

  lemma DistinctGrows(init: seq<Address>, last: Address)
    ensures NoDuplicates(init + [last]) <==> NoDuplicates(init) && last !in init
  {
    var s := init + [last];
    assert forall i | 0 <= i < |init| :: s[i] == init[i];
    if NoDuplicates(s) {
      forall i, j | 0 <= i < j < |init| ensures init[i] != init[j] { assert s[i] != s[j]; }
      forall i | 0 <= i < |init| ensures init[i] != last { assert s[i] != s[|init|]; }
    }
  }

  // ---- a batch seen from one lane, one hooks entry, and the finality word ----

  // None: some entrypoint on the lane was refused.  Some(l): all were accepted
  // and the lane is l.  Operations elsewhere are skipped.
  function RunLane(r: Roles, invoker: Address, lane: Option<Lane>, ops: seq<Op>, sel: Selector): Option<Option<Lane>>
    decreases ops
  {
    if ops == [] then Some(lane)
    else if ops[0].OnLane? && ops[0].sel == sel then
      match LaneStep(r, invoker, lane, ops[0].write)
      case None => None
      case Some(l) => RunLane(r, invoker, Some(l), ops[1..], sel)
    else RunLane(r, invoker, lane, ops[1..], sel)
  }

  function RunHooks(r: Roles, invoker: Address, hook: Option<Ccv>, ops: seq<Op>, sel: Selector): Option<Option<Ccv>>
    decreases ops
  {
    if ops == [] then Some(hook)
    else if ops[0].ApplyCcv? && ops[0].sel == sel then
      match HookStep(r, invoker, ops[0].config)
      case None => None
      case Some(h) => RunHooks(r, invoker, h, ops[1..], sel)
    else RunHooks(r, invoker, hook, ops[1..], sel)
  }

  function RunFinality(r: Roles, invoker: Address, v: uint32, ops: seq<Op>): Option<uint32>
    decreases ops
  {
    if ops == [] then Some(v)
    else if ops[0].SetAllowedFinality? then
      if invoker == r.owner then RunFinality(r, invoker, ops[0].value, ops[1..]) else None
    else RunFinality(r, invoker, v, ops[1..])
  }

  // A batch is accepted iff every lane, every hooks entry and the finality word
  // accept their own part of it, and each then ends where its part leaves it.
  lemma {:induction false} RunProjects(w: World, invoker: Address, ops: seq<Op>)
    ensures Run(w, invoker, ops).Some? <==>
              && (forall sel :: RunLane(w.roles, invoker, LaneAt(w, sel), ops, sel).Some?)
              && (forall sel :: RunHooks(w.roles, invoker, HookAt(w, sel), ops, sel).Some?)
              && RunFinality(w.roles, invoker, w.finality, ops).Some?
    ensures Run(w, invoker, ops).Some? ==>
              var w' := Run(w, invoker, ops).value;
              && w'.roles == w.roles
              && (forall sel :: RunLane(w.roles, invoker, LaneAt(w, sel), ops, sel) == Some(LaneAt(w', sel)))
              && (forall sel :: RunHooks(w.roles, invoker, HookAt(w, sel), ops, sel) == Some(HookAt(w', sel)))
              && RunFinality(w.roles, invoker, w.finality, ops) == Some(w'.finality)
    decreases ops
  {
    if ops != [] {
      var s := Step(w, invoker, ops[0]);
      if s.Some? {
        RunProjects(s.value, invoker, ops[1..]);
        StepProjects(w, invoker, ops);
      } else {
        match ops[0]
        case SetAllowedFinality(_) =>
        case ApplyCcv(sel, _) => assert RunHooks(w.roles, invoker, HookAt(w, sel), ops, sel).None?;
        case OnLane(sel, _) => assert RunLane(w.roles, invoker, LaneAt(w, sel), ops, sel).None?;
      }
    }
  }

  lemma StepProjects(w: World, invoker: Address, ops: seq<Op>)
    requires ops != [] && Step(w, invoker, ops[0]).Some?
    ensures var n := Step(w, invoker, ops[0]).value;
            && n.roles == w.roles
            && (forall sel :: RunLane(w.roles, invoker, LaneAt(w, sel), ops, sel) ==
                              RunLane(w.roles, invoker, LaneAt(n, sel), ops[1..], sel))
            && (forall sel :: RunHooks(w.roles, invoker, HookAt(w, sel), ops, sel) ==
                              RunHooks(w.roles, invoker, HookAt(n, sel), ops[1..], sel))
            && RunFinality(w.roles, invoker, w.finality, ops) == RunFinality(w.roles, invoker, n.finality, ops[1..])
  {
  }

  predicate AvoidsLane(ops: seq<Op>, sel: Selector) { forall op | op in ops :: op.OnLane? ==> op.sel != sel }
  predicate AvoidsHook(ops: seq<Op>, sel: Selector) { forall op | op in ops :: op.ApplyCcv? ==> op.sel != sel }
  predicate AvoidsFinality(ops: seq<Op>) { forall op | op in ops :: !op.SetAllowedFinality? }

  lemma {:induction false} RunLaneConcat(r: Roles, invoker: Address, lane: Option<Lane>, a: seq<Op>, b: seq<Op>,
                                         sel: Selector)
    ensures RunLane(r, invoker, lane, a + b, sel) ==
            (match RunLane(r, invoker, lane, a, sel) case None => None case Some(m) => RunLane(r, invoker, m, b, sel))
    ensures AvoidsLane(a, sel) ==> RunLane(r, invoker, lane, a, sel) == Some(lane)
    decreases a
  {
    if a == [] {
      assert a + b == b;
    } else {
      assert (a + b)[1..] == a[1..] + b;
      if a[0].OnLane? && a[0].sel == sel {
        var s := LaneStep(r, invoker, lane, a[0].write);
        if s.Some? { RunLaneConcat(r, invoker, Some(s.value), a[1..], b, sel); }
      } else {
        RunLaneConcat(r, invoker, lane, a[1..], b, sel);
      }
    }
  }

  lemma {:induction false} RunHooksConcat(r: Roles, invoker: Address, hook: Option<Ccv>, a: seq<Op>, b: seq<Op>,
                                          sel: Selector)
    ensures RunHooks(r, invoker, hook, a + b, sel) ==
            (match RunHooks(r, invoker, hook, a, sel) case None => None case Some(m) => RunHooks(r, invoker, m, b, sel))
    ensures AvoidsHook(a, sel) ==> RunHooks(r, invoker, hook, a, sel) == Some(hook)
    decreases a
  {
    if a == [] {
      assert a + b == b;
    } else {
      assert (a + b)[1..] == a[1..] + b;
      if a[0].ApplyCcv? && a[0].sel == sel {
        var s := HookStep(r, invoker, a[0].config);
        if s.Some? { RunHooksConcat(r, invoker, s.value, a[1..], b, sel); }
      } else {
        RunHooksConcat(r, invoker, hook, a[1..], b, sel);
      }
    }
  }

  lemma {:induction false} RunFinalityConcat(r: Roles, invoker: Address, v: uint32, a: seq<Op>, b: seq<Op>)
    ensures RunFinality(r, invoker, v, a + b) ==
            (match RunFinality(r, invoker, v, a) case None => None case Some(m) => RunFinality(r, invoker, m, b))
    ensures AvoidsFinality(a) ==> RunFinality(r, invoker, v, a) == Some(v)
    decreases a
  {
    if a == [] {
      assert a + b == b;
    } else {
      assert (a + b)[1..] == a[1..] + b;
      RunFinalityConcat(r, invoker, if a[0].SetAllowedFinality? then a[0].value else v, a[1..], b);
    }
  }
}
