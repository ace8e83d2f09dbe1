/**
 deployment/adapters: the CCV lists of one remote on the pool's AdvancedPoolHooks.
 */
module CcvLists {
  import opened Wrappers
  import opened TokenPool
  import opened WriteRouting
  import opened QueuedWrites
  import opened RemoteLanes

  // ---- the CCV lists of one remote ----------------------------------------------

  const NO_CCV: Ccv := Ccv([], false, [], false, [], [])

  function ListOrStored(provided: seq<Address>, stored: seq<Address>): seq<Address>
  {
    if provided != [] then provided else stored
  }

  function CcvArg(rc: Remote, stored: Ccv): Ccv
  {
    Ccv(ListOrStored(rc.outboundCcvs, stored.outbound), rc.outboundCcvs == [] && stored.outDefaults,
        ListOrStored(rc.inboundCcvs, stored.inbound), rc.inboundCcvs == [] && stored.inDefaults,
        ListOrStored(rc.thresholdOut, stored.thresholdOut), ListOrStored(rc.thresholdIn, stored.thresholdIn))
  }

  // unorderedStringsEqual: equal exactly when the lists are equal as multisets.
  method UnorderedStringsEqual(a: seq<Address>, b: seq<Address>) returns (r: bool)
    ensures r <==> multiset(a) == multiset(b)
  {
    if |a| != |b| {
      assert |multiset(a)| == |a| && |multiset(b)| == |b|;
      return false;
    }
    var counts: map<Address, int> := map[];
    for i := 0 to |a|
      invariant forall s :: Count(counts, s) == multiset(a[..i])[s]
    {
      Snoc(a, i);
      counts := counts[a[i] := Count(counts, a[i]) + 1];
    }
    assert a[..|a|] == a;
    r := CountDown(counts, multiset(a), b);
    if r { SubsetSameSize(multiset(b), multiset(a)); }
  }

  // The second loop: every string of b is taken off the counts of a.
  method CountDown(counts0: map<Address, int>, ghost a: multiset<Address>, b: seq<Address>) returns (r: bool)
    requires forall s :: Count(counts0, s) == a[s]
    ensures r <==> multiset(b) <= a
  {
    var counts := counts0;
    for i := 0 to |b|
      invariant forall s :: Count(counts, s) + multiset(b[..i])[s] == a[s]
      invariant forall s :: Count(counts, s) >= 0
    {
      Snoc(b, i);
      counts := counts[b[i] := Count(counts, b[i]) - 1];
      if counts[b[i]] < 0 {
        PrefixCounts(b, i + 1, b[i]);
        return false;
      }
    }
    assert b[..|b|] == b;
    return true;
  }

  lemma Snoc(s: seq<Address>, i: nat)
    requires i < |s|
    ensures multiset(s[..i + 1]) == multiset(s[..i]) + multiset{s[i]}
  {
    assert s[..i + 1] == s[..i] + [s[i]];
  }

  lemma PrefixCounts(b: seq<Address>, n: nat, s: Address)
    requires n <= |b|
    ensures multiset(b[..n])[s] <= multiset(b)[s]
  {
    assert b == b[..n] + b[n..];
  }

  function Count(counts: map<Address, int>, s: Address): int { if s in counts then counts[s] else 0 }

  lemma SubsetSameSize(small: multiset<Address>, big: multiset<Address>)
    requires small <= big && |small| == |big|
    ensures small == big
  {
    assert |big - small| == 0;
    assert big == small + (big - small);
  }

  // ccvArgMatchesStored's verdict, as a relation on the two configs.
  ghost predicate SameUpToOrder(a: Ccv, b: Ccv)
  {
    && multiset(a.outbound) == multiset(b.outbound) && a.outDefaults == b.outDefaults
    && multiset(a.inbound) == multiset(b.inbound) && a.inDefaults == b.inDefaults
    && multiset(a.thresholdOut) == multiset(b.thresholdOut) && multiset(a.thresholdIn) == multiset(b.thresholdIn)
  }

  method CcvArgMatchesStored(arg: Ccv, stored: Ccv, hasStored: bool) returns (r: bool)
    ensures r <==> hasStored && SameUpToOrder(arg, stored)
  {
    if !hasStored { return false; }
    var o := UnorderedStringsEqual(arg.outbound, stored.outbound);
    var i := UnorderedStringsEqual(arg.inbound, stored.inbound);
    var to := UnorderedStringsEqual(arg.thresholdOut, stored.thresholdOut);
    var ti := UnorderedStringsEqual(arg.thresholdIn, stored.thresholdIn);
    return o && arg.outDefaults == stored.outDefaults && i && arg.inDefaults == stored.inDefaults && to && ti;
  }

  // ---- an independent reading of the entry a run leaves --------------------------------

  // A supplied list is the stored one up to order; an omitted one is as it stood.
  ghost predicate ListReads(supplied: seq<Address>, was: seq<Address>, now: seq<Address>)
  {
    if supplied == [] then now == was else multiset(now) == multiset(supplied)
  }

  ghost predicate EntryReads(stood: Ccv, rc: Remote, now: Ccv)
  {
    && ListReads(rc.outboundCcvs, stood.outbound, now.outbound)
    && ListReads(rc.inboundCcvs, stood.inbound, now.inbound)
    && ListReads(rc.thresholdOut, stood.thresholdOut, now.thresholdOut)
    && ListReads(rc.thresholdIn, stood.thresholdIn, now.thresholdIn)
    // supplying a list takes its defaults flag away
    && (now.outDefaults <==> stood.outDefaults && rc.outboundCcvs == [])
    && (now.inDefaults <==> stood.inDefaults && rc.inboundCcvs == [])
  }

  predicate InOrder(rc: Remote, now: Ccv)
  {
    && (rc.outboundCcvs != [] ==> now.outbound == rc.outboundCcvs)
    && (rc.inboundCcvs != [] ==> now.inbound == rc.inboundCcvs)
    && (rc.thresholdOut != [] ==> now.thresholdOut == rc.thresholdOut)
    && (rc.thresholdIn != [] ==> now.thresholdIn == rc.thresholdIn)
  }

  predicate NoLists(rc: Remote)
  {
    rc.outboundCcvs == [] && rc.inboundCcvs == [] && rc.thresholdOut == [] && rc.thresholdIn == []
  }

  // The entry that stands is kept when it reads as asked already; else the lists
  // are stored as given.  Nothing is stored where nothing stood or was supplied.
  ghost predicate HookReads(before: Option<Ccv>, rc: Remote, after: Option<Ccv>)
  {
    match after
    case None => before.None? && NoLists(rc)
    case Some(now) =>
      if before.None? then !NoLists(rc) && EntryReads(Ccv([], false, [], false, [], []), rc, now) && InOrder(rc, now)
      else if EntryReads(before.value, rc, before.value) then now == before.value
      else EntryReads(before.value, rc, now) && InOrder(rc, now)
  }

  // Nothing to write: the entry reads as asked already.
  ghost predicate HookSettled(hook: Option<Ccv>, rc: Remote) { HookReads(hook, rc, hook) }

  // Which is what the planner's two comparisons decide.
  lemma SettledAsCompared(hook: Option<Ccv>, rc: Remote)
    ensures var stored := Or(hook, NO_CCV);
            var arg := CcvArg(rc, stored);
            HookSettled(hook, rc) <==>
              if hook.Some? then SameUpToOrder(arg, stored)
              else arg.outbound == arg.inbound == arg.thresholdOut == arg.thresholdIn == []
  {
  }

  ghost function WantHook(hook: Option<Ccv>, rc: Remote): Option<Ccv>
  {
    if HookSettled(hook, rc) then hook else Some(CcvArg(rc, Or(hook, NO_CCV)))
  }

  // ---- the hooks' CCV lists ------------------------------------------------------------

  // Where a remote's hooks entry ends, None when the contract refuses the config.
  ghost function HookGoal(w: World, rc: Remote): Option<Option<Ccv>>
  {
    var hook := HookAt(w, rc.sel);
    if w.roles.hooksOwner.None? then Some(hook)
    else if HookSettled(hook, rc) || CcvValid(CcvArg(rc, Or(hook, NO_CCV))) then Some(WantHook(hook, rc))
    else None
  }

  ghost predicate HookDone(before: World, after: World, timelock: Option<Address>, rc: Remote, q: seq<Op>)
  {
    HookQueued(before, after, timelock, rc.sel, q, HookGoal(before, rc))
  }

  // A config that is neither settled nor invalid has a base, so it is stored.
  lemma WrittenConfigHasBase(hook: Option<Ccv>, rc: Remote)
    requires !HookSettled(hook, rc) && CcvValid(CcvArg(rc, Or(hook, NO_CCV)))
    ensures HasBase(CcvArg(rc, Or(hook, NO_CCV)))
  {
    if rc.outboundCcvs == [] && rc.inboundCcvs == [] && rc.thresholdOut == [] && rc.thresholdIn == [] && hook.Some? {
      assert CcvArg(rc, hook.value) == hook.value;
    }
  }

  // The wanted entry, and it alone, reads as asked.
  lemma WantedHookReads(hook: Option<Ccv>, rc: Remote, after: Option<Ccv>)
    ensures HookReads(hook, rc, after) <==> after == WantHook(hook, rc)
  {
  }

  // A run is refused iff the entry must change and the hooks refuse how it reads.
  ghost predicate HookAdmitted(w: World, rc: Remote)
  {
    w.roles.hooksOwner.Some? ==>
      exists after ::
        && HookReads(HookAt(w, rc.sel), rc, after)
        && (after == HookAt(w, rc.sel) || (after.Some? && CcvValid(after.value)))
  }

  lemma HookGoalReads(w: World, rc: Remote)
    ensures HookGoal(w, rc).Some? <==> HookAdmitted(w, rc)
    ensures HookGoal(w, rc).Some? ==>
              if w.roles.hooksOwner.None? then HookGoal(w, rc).value == HookAt(w, rc.sel)
              else HookReads(HookAt(w, rc.sel), rc, HookGoal(w, rc).value)
  {
    var hook := HookAt(w, rc.sel);
    WantedHookReads(hook, rc, WantHook(hook, rc));
    forall after ensures HookReads(hook, rc, after) <==> after == WantHook(hook, rc) {
      WantedHookReads(hook, rc, after);
    }
    WantedEntry(hook, rc);
    hide HookReads, HookSettled, CcvArg, CcvValid;
  }

  lemma WantedEntry(hook: Option<Ccv>, rc: Remote)
    ensures HookSettled(hook, rc) <==> WantHook(hook, rc) == hook
    ensures !HookSettled(hook, rc) ==> WantHook(hook, rc) == Some(CcvArg(rc, Or(hook, NO_CCV)))
  {
  }

  // The lists stand already, or their write has an identity to make it, and the
  // deployer's own is accepted.
  ghost predicate HookRuns(w: World, deployer: Address, timelock: Option<Address>, rc: Remote)
  {
    var hook := HookAt(w, rc.sel);
    var owner := w.roles.hooksOwner;
    owner.Some? && !HookSettled(hook, rc) ==>
      Routable(owner.value, deployer, timelock) && (owner == Some(deployer) ==> HookAdmitted(w, rc))
  }

  // Once the queue has run the entry reads as asked, or the hooks refuse it.
  ghost predicate EntryLeft(before: World, after: World, timelock: Option<Address>, rc: Remote, q: seq<Op>)
  {
    var end := RunHooks(after.roles, Or(timelock, ""), HookAt(after, rc.sel), q, rc.sel);
    && (end.Some? <==> HookAdmitted(before, rc))
    && (end.Some? ==> HookReads(HookAt(before, rc.sel), rc, end.value))
  }

  method ApplyPoolCcvConfig(aphRouter: Router, rc: Remote) returns (r: Result<bool, string>, ghost hw: seq<Op>)
    requires aphRouter.timelock != Some(aphRouter.deployer)
    requires aphRouter.chain.world.roles.hooksOwner == Some(aphRouter.owner)
    modifies aphRouter, aphRouter.chain
    ensures r.Ok? ==> aphRouter.writes == old(aphRouter.writes) + hw
    ensures r.Ok? ==> HookDone(old(aphRouter.chain.world), aphRouter.chain.world, aphRouter.timelock, rc, hw)
    ensures r.Ok? ==> EntryLeft(old(aphRouter.chain.world), aphRouter.chain.world, aphRouter.timelock, rc, hw)
    ensures r.Ok? <==> HookRuns(old(aphRouter.chain.world), aphRouter.deployer, aphRouter.timelock, rc)
    ensures HookSettled(HookAt(old(aphRouter.chain.world), rc.sel), rc) ==>
              && hw == [] && aphRouter.writes == old(aphRouter.writes)
              && aphRouter.chain.world == old(aphRouter.chain.world) && aphRouter.chain.log == old(aphRouter.chain.log)
  {
    hide CcvValid, HasBase, SameUpToOrder, HookSettled, HookAdmitted, HookReads;
    hw := [];
    var chain := aphRouter.chain;
    ghost var before := chain.world;
    var hook := HookAt(chain.world, rc.sel);
    var stored := Or(hook, NO_CCV);
    var arg := CcvArg(rc, stored);
    SettledAsCompared(hook, rc);
    HookGoalReads(before, rc);
    var matches := CcvArgMatchesStored(arg, stored, hook.Some?);
    if matches { return Ok(false), hw; }
    if hook.None? && |arg.outbound| == 0 && |arg.inbound| == 0 && |arg.thresholdOut| == 0 && |arg.thresholdIn| == 0 {
      return Ok(false), hw;
    }
    var op := ApplyCcv(rc.sel, arg);
    if CcvValid(arg) { WrittenConfigHasBase(hook, rc); }
    var routed := aphRouter.Route(aphRouter.owner, op);
    if routed.Err? { return Err(routed.error), hw; }
    if !routed.value {
      hw := [op];
      OneHookWrite(chain.world.roles, Or(aphRouter.timelock, ""), hook, rc.sel, arg);
    }
    return Ok(true), hw;
  }

  lemma OneHookWrite(r: Roles, invoker: Address, hook: Option<Ccv>, sel: Selector, config: Ccv)
    ensures RunHooks(r, invoker, hook, [ApplyCcv(sel, config)], sel) == HookStep(r, invoker, config)
  {
    assert [ApplyCcv(sel, config)][1..] == [];
  }

  lemma WantedHookIsSettled(hook: Option<Ccv>, rc: Remote)
    ensures HookSettled(WantHook(hook, rc), rc)
  {
  }
}
