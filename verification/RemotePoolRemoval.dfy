/**
 deployment/adapters: removing remote-pool entries.  Each request names one
 address; every stored entry equal to it in raw or padded form is removed, by
 the deployer when it owns the pool, else by a proposal the owner executes.
 */
module RemotePoolRemoval {
  import opened Wrappers
  import opened WireBytes
  import opened TokenPool
  import opened WriteRouting

  // The address as decoded: 20 or 32 bytes, or the decoding error.
  datatype Request = Request(sel: Selector, address: Result<Bytes, string>)

  type Entry = (Selector, Bytes)

  predicate Asks(q: Request, sel: Selector, entry: Bytes)
  {
    q.sel == sel && q.address.Ok? && LeftPad(entry) == LeftPad(q.address.value)
  }

  predicate Requested(requests: seq<Request>, sel: Selector, entry: Bytes)
  {
    exists q :: q in requests && Asks(q, sel, entry)
  }

  function Stored(w: World, sel: Selector): seq<Bytes> { if sel in w.lanes then w.lanes[sel].pools else [] }

  predicate Once(pools: seq<Bytes>, e: Bytes) { forall i, j | 0 <= i < j < |pools| :: pools[i] == e ==> pools[j] != e }

  // ---- the list after the first occurrence of each given entry is gone ---------------------

  function DropFirsts(pools: seq<Bytes>, gone: set<Bytes>): seq<Bytes>
  {
    if pools == [] then []
    else if pools[0] in gone then DropFirsts(pools[1..], gone - {pools[0]})
    else [pools[0]] + DropFirsts(pools[1..], gone)
  }

  function Without(pools: seq<Bytes>, e: Bytes): seq<Bytes>
    requires e in pools
  {
    pools[..IndexOf(pools, e)] + pools[IndexOf(pools, e) + 1..]
  }

  lemma WithoutTail(pools: seq<Bytes>, e: Bytes)
    requires e in pools && pools[0] != e
    ensures e in pools[1..] && Without(pools, e) == [pools[0]] + Without(pools[1..], e)
  {
    assert pools == [pools[0]] + pools[1..];
  }

  lemma {:induction false} DropMembers(pools: seq<Bytes>, gone: set<Bytes>, e: Bytes)
    requires e !in gone
    ensures e in DropFirsts(pools, gone) <==> e in pools
  {
    if pools != [] {
      DropMembers(pools[1..], if pools[0] in gone then gone - {pools[0]} else gone, e);
    }
  }

  // Removing one more entry from the chain's list is one more entry gone.
  lemma {:induction false} DropOneMore(pools: seq<Bytes>, gone: set<Bytes>, e: Bytes)
    requires e !in gone && e in pools
    ensures e in DropFirsts(pools, gone)
    ensures Without(DropFirsts(pools, gone), e) == DropFirsts(pools, gone + {e})
  {
    DropMembers(pools, gone, e);
    var rest := pools[1..];
    if pools[0] == e {
      assert gone + {e} - {e} == gone;
    } else if pools[0] in gone {
      DropOneMore(rest, gone - {pools[0]}, e);
      assert gone + {e} - {pools[0]} == gone - {pools[0]} + {e};
    } else {
      DropOneMore(rest, gone, e);
      WithoutTail(DropFirsts(pools, gone), e);
    }
  }

  // What is left: entries outside `gone` stay in order, one inside stays iff it
  // was stored more than once.
  function Others(pools: seq<Bytes>, gone: set<Bytes>): seq<Bytes>
  {
    if pools == [] then []
    else (if pools[0] in gone then [] else [pools[0]]) + Others(pools[1..], gone)
  }

  lemma {:induction false} DropKeepsOthers(pools: seq<Bytes>, gone: set<Bytes>, all: set<Bytes>)
    requires gone <= all
    ensures Others(DropFirsts(pools, gone), all) == Others(pools, all)
  {
    if pools != [] {
      DropKeepsOthers(pools[1..], if pools[0] in gone then gone - {pools[0]} else gone, all);
    }
  }

  lemma {:induction false} DropLeaves(pools: seq<Bytes>, gone: set<Bytes>, e: Bytes)
    requires e in gone
    ensures e in DropFirsts(pools, gone) <==> !Once(pools, e)
  {
    if pools != [] {
      var rest := pools[1..];
      assert pools == [pools[0]] + rest;
      if pools[0] == e {
        DropMembers(rest, gone - {e}, e);
        if e in rest {
          var j :| 0 <= j < |rest| && rest[j] == e;
          assert pools[0] == e && pools[j + 1] == e;
        }
      } else {
        DropLeaves(rest, if pools[0] in gone then gone - {pools[0]} else gone, e);
        OnceTail(pools, e);
      }
    }
  }

  lemma OnceTail(pools: seq<Bytes>, e: Bytes)
    requires pools != [] && pools[0] != e
    ensures Once(pools, e) <==> Once(pools[1..], e)
  {
    var rest := pools[1..];
    if !Once(pools, e) {
      var i, j :| 0 <= i < j < |pools| && pools[i] == e && pools[j] == e;
      assert rest[i - 1] == e && rest[j - 1] == e;
    }
    if !Once(rest, e) {
      var i, j :| 0 <= i < j < |rest| && rest[i] == e && rest[j] == e;
      assert pools[i + 1] == e && pools[j + 1] == e;
    }
  }

  // ---- removals on the chain ----------------------------------------------------------------

  function At(gone: seq<Entry>, sel: Selector): set<Bytes> { set p | p in gone && p.0 == sel :: p.1 }

  function Pruned(w: World, gone: seq<Entry>): World
  {
    w.(lanes := map sel | sel in w.lanes :: w.lanes[sel].(pools := DropFirsts(w.lanes[sel].pools, At(gone, sel))))
  }

  function Removals(gone: seq<Entry>): seq<Op>
  {
    seq(|gone|, i requires 0 <= i < |gone| => OnLane(gone[i].0, RemoveRemotePool(gone[i].1)))
  }

  predicate Distinct(gone: seq<Entry>) { forall i, j | 0 <= i < j < |gone| :: gone[i] != gone[j] }

  lemma {:induction false} DropNone(pools: seq<Bytes>)
    ensures DropFirsts(pools, {}) == pools
  {
    if pools != [] { DropNone(pools[1..]); }
  }

  lemma PrunedNone(w: World)
    ensures Pruned(w, []) == w
  {
    forall sel | sel in w.lanes ensures DropFirsts(w.lanes[sel].pools, At([], sel)) == w.lanes[sel].pools {
      assert At([], sel) == {};
      DropNone(w.lanes[sel].pools);
    }
    assert Pruned(w, []).lanes == w.lanes;
  }

  // The pool list of one lane, one removal later.
  lemma LaneRemovalStep(w: World, gone: seq<Entry>, e: Entry)
    requires e !in gone && e.1 in Stored(w, e.0)
    ensures e.0 in Pruned(w, gone).lanes
    ensures LaneStep(w.roles, w.roles.owner, Some(Pruned(w, gone).lanes[e.0]), RemoveRemotePool(e.1)) ==
            Some(Pruned(w, gone + [e]).lanes[e.0])
  {
    hide DropFirsts;
    DropOneMore(w.lanes[e.0].pools, At(gone, e.0), e.1);
    assert At(gone + [e], e.0) == At(gone, e.0) + {e.1};
  }

  lemma OtherLanes(w: World, gone: seq<Entry>, e: Entry)
    ensures forall s | s in w.lanes && s != e.0 :: Pruned(w, gone + [e]).lanes[s] == Pruned(w, gone).lanes[s]
  {
    hide DropFirsts;
    forall s | s in w.lanes && s != e.0 ensures At(gone + [e], s) == At(gone, s) { }
  }

  lemma RemovalStep(w: World, gone: seq<Entry>, e: Entry)
    requires e !in gone && e.1 in Stored(w, e.0)
    ensures Step(Pruned(w, gone), w.roles.owner, OnLane(e.0, RemoveRemotePool(e.1))) == Some(Pruned(w, gone + [e]))
  {
    LaneRemovalStep(w, gone, e);
    OtherLanes(w, gone, e);
    PrunedKeeps(w, gone);
    PrunedKeeps(w, gone + [e]);
    hide Pruned, LaneStep, DropFirsts;
    assert Pruned(w, gone).lanes[e.0 := Pruned(w, gone + [e]).lanes[e.0]] == Pruned(w, gone + [e]).lanes;
  }

  lemma PrunedKeeps(w: World, gone: seq<Entry>)
    ensures Pruned(w, gone) == w.(lanes := Pruned(w, gone).lanes) && Pruned(w, gone).lanes.Keys == w.lanes.Keys
  {
  }

  // ---- the planner ----------------------------------------------------------------------------

  function Logged(deployer: Address, gone: seq<Entry>): seq<(Address, Op)>
  {
    seq(|gone|, i requires 0 <= i < |gone| => (deployer, OnLane(gone[i].0, RemoveRemotePool(gone[i].1))))
  }

  // The entries removed so far, done by the deployer or proposed to the owner.
  ghost predicate Removing(before: World, w: World, owner: Address, deployer: Address, gone: seq<Entry>,
                           proposals: seq<Op>, log0: seq<(Address, Op)>, log: seq<(Address, Op)>)
  {
    && Distinct(gone) && (forall e | e in gone :: e.1 in Stored(before, e.0))
    && Run(before, owner, Removals(gone)) == Some(Pruned(before, gone))
    && (if owner == deployer then
          && w == Pruned(before, gone) && proposals == []
          && log == log0 + Logged(deployer, gone)
        else w == before && proposals == Removals(gone) && log == log0)
  }

  // The next entry, either way it is removed.
  lemma RemovingOne(before: World, w: World, owner: Address, deployer: Address, gone: seq<Entry>,
                    proposals: seq<Op>, log0: seq<(Address, Op)>, log: seq<(Address, Op)>, e: Entry)
    requires Removing(before, w, owner, deployer, gone, proposals, log0, log)
    requires owner == before.roles.owner && e !in gone && e.1 in Stored(before, e.0)
    ensures var op := OnLane(e.0, RemoveRemotePool(e.1));
            if owner == deployer then
              && Step(w, deployer, op).Some?
              && Removing(before, Step(w, deployer, op).value, owner, deployer, gone + [e], proposals, log0,
                          log + [(deployer, op)])
            else Removing(before, w, owner, deployer, gone + [e], proposals + [op], log0, log)
  {
    var op := OnLane(e.0, RemoveRemotePool(e.1));
    RemovalsGrow(before, owner, deployer, gone, e);
    DistinctGrows(gone, e);
    hide Pruned, Removals, Logged, Distinct, Run, Step, Stored;
  }

  lemma DistinctGrows(gone: seq<Entry>, e: Entry)
    requires Distinct(gone) && e !in gone
    ensures Distinct(gone + [e])
  {
  }

  lemma RemovalsGrow(before: World, owner: Address, deployer: Address, gone: seq<Entry>, e: Entry)
    requires owner == before.roles.owner && e !in gone && e.1 in Stored(before, e.0)
    requires Run(before, owner, Removals(gone)) == Some(Pruned(before, gone))
    ensures var op := OnLane(e.0, RemoveRemotePool(e.1));
            && Removals(gone + [e]) == Removals(gone) + [op] &&
               Logged(deployer, gone + [e]) == Logged(deployer, gone) + [(deployer, op)]
            && Step(Pruned(before, gone), owner, op) == Some(Pruned(before, gone + [e]))
            && Run(before, owner, Removals(gone + [e])) == Some(Pruned(before, gone + [e]))
  {
    var op := OnLane(e.0, RemoveRemotePool(e.1));
    assert Removals(gone + [e]) == Removals(gone) + [op];
    RunConcat(before, owner, Removals(gone), [op]);
    RemovalStep(before, gone, e);
    hide Pruned, Removals, Step;
    RunOne(Pruned(before, gone), owner, op);
  }

  lemma RunOne(w: World, invoker: Address, op: Op)
    ensures Run(w, invoker, [op]) == Step(w, invoker, op)
  {
    assert [op][1..] == [];
  }

  // One request's matches, skipping what this run already removed.
  method RemoveMatches(chain: Chain, owner: Address, deployer: Address, sel: Selector, matches: seq<Bytes>,
                       removed0: set<Entry>, proposals0: seq<Op>, ghost gone0: seq<Entry>, ghost before: World,
                       ghost log0: seq<(Address, Op)>)
    returns (removed: set<Entry>, proposals: seq<Op>, executed: bool, ghost gone: seq<Entry>)
    requires owner == before.roles.owner && (forall b | b in matches :: b in Stored(before, sel))
    requires Removing(before, chain.world, owner, deployer, gone0, proposals0, log0, chain.log)
    requires forall e :: e in removed0 <==> e in gone0
    modifies chain
    ensures Removing(before, chain.world, owner, deployer, gone, proposals, log0, chain.log)
    ensures forall e :: e in removed <==> e in gone
    ensures forall e :: e in gone <==> e in gone0 || (e.0 == sel && e.1 in matches)
    ensures executed <==> owner == deployer && gone != gone0
    ensures gone0 <= gone
  {
    hide Removing, Stored;
    removed, proposals, executed, gone := removed0, proposals0, false, gone0;
    for i := 0 to |matches|
      invariant Removing(before, chain.world, owner, deployer, gone, proposals, log0, chain.log)
      invariant forall e :: e in removed <==> e in gone
      invariant forall e :: e in gone <==> e in gone0 || (e.0 == sel && e.1 in matches[..i])
      invariant executed <==> owner == deployer && gone != gone0
      invariant gone0 <= gone
    {
      var key := (sel, matches[i]);
      if key !in removed {
        removed := removed + {key};
        RemovingOne(before, chain.world, owner, deployer, gone, proposals, log0, chain.log, key);
        var op := OnLane(sel, RemoveRemotePool(matches[i]));
        gone := gone + [key];
        if owner == deployer {
          var ok := chain.Invoke(deployer, op);
          assert ok;  // the owner's removal of a stored entry is never refused
          executed := true;
        } else {
          proposals := proposals + [op];
        }
      }
    }
  }

  ghost predicate Done(before: World, requests: seq<Request>, gone: seq<Entry>)
  {
    forall e: Entry :: e in gone <==> e.1 in Stored(before, e.0) && Requested(requests, e.0, e.1)
  }

  // What one request reads is exactly what it asks for and is still stored.
  lemma RequestMatches(before: World, w: World, gone: seq<Entry>, done: seq<Request>, q: Request)
    requires Done(before, done, gone) && q.address.Ok?
    requires w == before || w == Pruned(before, gone)
    ensures forall b | b in MatchingEntries(Stored(w, q.sel), q.address.value) :: b in Stored(before, q.sel)
    ensures forall e: Entry :: (e in gone ||
                                (e.0 == q.sel && e.1 in MatchingEntries(Stored(w, q.sel), q.address.value))) <==>
                               e.1 in Stored(before, e.0) && Requested(done + [q], e.0, e.1)
  {
    var matches := MatchingEntries(Stored(w, q.sel), q.address.value);
    MatchingMembers(Stored(w, q.sel), q.address.value);
    forall b | b !in At(gone, q.sel) ensures b in Stored(w, q.sel) <==> b in Stored(before, q.sel) {
      DropMembers(Stored(before, q.sel), At(gone, q.sel), b);
    }
    forall b | b in Stored(w, q.sel) ensures b in Stored(before, q.sel) {
      if b in At(gone, q.sel) { assert (q.sel, b) in gone; }
    }
    forall e: Entry
      ensures Requested(done + [q], e.0, e.1) <==> Requested(done, e.0, e.1) || Asks(q, e.0, e.1)
    {
      if Requested(done, e.0, e.1) { var d :| d in done && Asks(d, e.0, e.1); assert d in done + [q]; }
      if Asks(q, e.0, e.1) { assert q in done + [q]; }
    }
    forall e: Entry | e.1 in Stored(before, e.0) && Asks(q, e.0, e.1) ensures e in gone || e.1 in matches {
      if e.1 in At(gone, q.sel) { assert (q.sel, e.1) == e; }
    }
  }

  // One request: what it matches in a fresh read.
  method RemoveRequested(chain: Chain, owner: Address, deployer: Address, q: Request, removed0: set<Entry>,
                         proposals0: seq<Op>, ghost gone0: seq<Entry>, ghost before: World,
                         ghost log0: seq<(Address, Op)>, ghost earlier: seq<Request>)
    returns (r: Result<bool, string>, removed: set<Entry>, proposals: seq<Op>, ghost gone: seq<Entry>)
    requires owner == before.roles.owner &&
             Removing(before, chain.world, owner, deployer, gone0, proposals0, log0, chain.log)
    requires (forall e :: e in removed0 <==> e in gone0) && Done(before, earlier, gone0)
    modifies chain
    ensures r.Ok? <==> q.address.Ok? && q.sel in before.lanes
    ensures r.Ok? ==> Removing(before, chain.world, owner, deployer, gone, proposals, log0, chain.log)
    ensures r.Ok? ==> (forall e :: e in removed <==> e in gone) && Done(before, earlier + [q], gone) && gone0 <= gone
    ensures r.Ok? ==> (r.value <==> owner == deployer && gone != gone0)
  {
    removed, proposals, gone := removed0, proposals0, gone0;
    if q.address.Err? { r := Err(q.address.error); return; }
    assert chain.world.lanes.Keys == before.lanes.Keys;
    if q.sel !in chain.world.lanes { r := Err("chain not supported"); return; }
    var matches := MatchingEntries(Stored(chain.world, q.sel), q.address.value);
    RequestMatches(before, chain.world, gone0, earlier, q);
    hide Removing, Done, Pruned, MatchingEntries;
    var executed := false;
    if |matches| > 0 {
      removed, proposals, executed, gone :=
        RemoveMatches(chain, owner, deployer, q.sel, matches, removed, proposals, gone, before, log0);
    }
    r := Ok(executed);
    assert forall e: Entry :: e in gone <==> e.1 in Stored(before, e.0) && Requested(earlier + [q], e.0, e.1);
    DoneIs(before, earlier + [q], gone);
  }

  lemma DoneIs(before: World, requests: seq<Request>, gone: seq<Entry>)
    requires forall e: Entry :: e in gone <==> e.1 in Stored(before, e.0) && Requested(requests, e.0, e.1)
    ensures Done(before, requests, gone)
  {
  }

  lemma NothingRemoved(before: World, owner: Address, deployer: Address, log: seq<(Address, Op)>)
    ensures Removing(before, before, owner, deployer, [], [], log, log) && Done(before, [], [])
  {
    PrunedNone(before);
    assert Removals([]) == [] && Logged(deployer, []) == [];
  }

  // removeRemotePools.  `gone` lists the removals in the order they were emitted.
  method RemoveRemotePools(chain: Chain, deployer: Address, requests: seq<Request>)
    returns (r: Result<seq<BatchOp>, string>, ghost gone: seq<Entry>)
    modifies chain
    ensures r.Ok? <==> forall q | q in requests :: q.address.Ok? && q.sel in old(chain.world).lanes
    ensures r.Ok? ==> Done(old(chain.world), requests, gone)
    ensures r.Ok? ==> Removing(old(chain.world), chain.world, old(chain.world).roles.owner, deployer, gone,
                               Queued(r.value),
                               old(chain.log), chain.log)
    ensures r.Ok? ==> (DirectMarker in r.value <==> old(chain.world).roles.owner == deployer && gone != [])
  {
    hide Removing, Done;
    ghost var before, log0 := chain.world, chain.log;
    var owner := chain.world.roles.owner;
    var removed: set<Entry>, proposals: seq<Op>, executed := {}, [], false;
    gone := [];
    NothingRemoved(before, owner, deployer, log0);
    for i := 0 to |requests|
      invariant forall q | q in requests[..i] :: q.address.Ok? && q.sel in before.lanes
      invariant Removing(before, chain.world, owner, deployer, gone, proposals, log0, chain.log)
      invariant forall e :: e in removed <==> e in gone
      invariant Done(before, requests[..i], gone)
      invariant executed <==> owner == deployer && gone != []
    {
      var more;
      more, removed, proposals, gone :=
        RemoveRequested(chain, owner, deployer, requests[i], removed, proposals, gone, before, log0, requests[..i]);
      if more.Err? { return Err(more.error), gone; }
      executed := executed || more.value;
      assert requests[..i + 1] == requests[..i] + [requests[i]];
    }
    assert requests[..|requests|] == requests;
    r := Ok(Batches(executed, proposals));
  }

  // ---- what a finished removal means ------------------------------------------------------------

  function GoneAt(w: World, requests: seq<Request>, sel: Selector): set<Bytes>
  {
    set b | b in Stored(w, sel) && Requested(requests, sel, b)
  }

  // Nothing but pool lists changes, unrequested entries stay in order, and no
  // requested entry is left exactly when none was stored twice.
  lemma RemovalMeaning(before: World, requests: seq<Request>, gone: seq<Entry>, sel: Selector)
    requires Done(before, requests, gone)
    ensures var end := Pruned(before, gone);
            && end == before.(lanes := end.lanes) && end.lanes.Keys == before.lanes.Keys
            && (sel in before.lanes ==> end.lanes[sel] == before.lanes[sel].(pools := Stored(end, sel)))
            && Others(Stored(end, sel), GoneAt(before, requests, sel)) ==
               Others(Stored(before, sel), GoneAt(before, requests, sel))
            && ((forall e | e in Stored(end, sel) :: !Requested(requests, sel, e)) <==>
                (forall e | e in Stored(before, sel) && Requested(requests, sel, e) :: Once(Stored(before, sel), e)))
  {
    var pools, drop := Stored(before, sel), GoneAt(before, requests, sel);
    if sel in before.lanes {
      forall b ensures b in At(gone, sel) <==> b in drop {
        if b in drop { assert (sel, b) in gone; }
      }
      assert At(gone, sel) == drop;
      DropKeepsOthers(pools, drop, drop);
      forall e | e in drop ensures e in DropFirsts(pools, drop) <==> !Once(pools, e) { DropLeaves(pools, drop, e); }
      forall e | e !in drop ensures e in DropFirsts(pools, drop) <==> e in pools { DropMembers(pools, drop, e); }
      forall e | e in DropFirsts(pools, drop) && Requested(requests, sel, e) ensures e in drop { }
    }
  }

  // An entry stored twice survives its removal once.
  lemma StoredTwiceSurvives(before: World, sel: Selector, entry: Bytes, gone: seq<Entry>)
    requires Stored(before, sel) == [entry, entry]
    requires Done(before, [Request(sel, Ok(entry))], gone)
    ensures Stored(Pruned(before, gone), sel) == [entry]
  {
    var q := Request(sel, Ok(entry));
    assert q in [q] && Asks(q, sel, entry);
    assert (sel, entry) in gone;
    assert At(gone, sel) == {entry};
    assert [entry, entry][1..] == [entry];
    assert {entry} - {entry} == {};
    DropNone([entry]);
  }

  // With distinct stored entries a rerun finds nothing to remove.
  lemma RerunRemovesNothing(before: World, requests: seq<Request>, gone: seq<Entry>, again: seq<Entry>)
    requires forall sel, e :: Once(Stored(before, sel), e)
    requires Done(before, requests, gone)
    requires Done(Pruned(before, gone), requests, again)
    ensures again == []
  {
    if again != [] {
      var e := again[0];
      assert e.1 in Stored(Pruned(before, gone), e.0) && Requested(requests, e.0, e.1);
      RemovalMeaning(before, requests, gone, e.0);
      assert false;
    }
  }
}
