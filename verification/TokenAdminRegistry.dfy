/**
 The TokenAdminRegistry's entry for one token (contracts/token-admin-registry)
 and the planner that registers the token in it (deployment/adapters).
 */
module TokenAdminRegistry {
  import opened Wrappers
  import WriteRouting

  type Address = string

  datatype Config = Config(admin: Option<Address>, pending: Option<Address>, pool: Option<Address>)

  // `modules` may propose beside the owner; `supporting` are the pools that
  // answer is_supported_token for this token.
  datatype Registry = Registry(owner: Address, modules: set<Address>, supporting: set<Address>, token: Config)

  datatype Op =
    | ProposeAdministrator(caller: Address, newAdmin: Address)
    | TransferAdminRole(transferTo: Option<Address>)
    | AcceptAdminRole
    | SetPool(pool: Option<Address>)

  // One entrypoint, invoked (and so authorized) by `invoker`; None is a refusal.
  function Step(r: Registry, invoker: Address, op: Op): Option<Registry>
  {
    var c := r.token;
    match op
    case ProposeAdministrator(caller, a) =>
      // a proposal clears the stored pool
      if (caller == r.owner || caller in r.modules) && caller == invoker && c.admin.None?
      then Some(r.(token := Config(None, Some(a), None))) else None
    case TransferAdminRole(to) =>
      if c.admin == Some(invoker) then Some(r.(token := c.(pending := to))) else None
    case AcceptAdminRole =>
      if c.pending == Some(invoker) then Some(r.(token := c.(admin := c.pending, pending := None))) else None
    case SetPool(p) =>
      if c.admin == Some(invoker) && (p.None? || p.value in r.supporting) then Some(r.(token := c.(pool := p)))
        else None
  }

  // An emitted operation with the identity that must invoke it.
  type Write = (Address, Op)

  function Run(r: Registry, ws: seq<Write>): Option<Registry>
    decreases ws
  {
    if ws == [] then Some(r)
    else
      match Step(r, ws[0].0, ws[0].1)
      case None => None
      case Some(next) => Run(next, ws[1..])
  }

  lemma {:induction false} RunConcat(r: Registry, a: seq<Write>, b: seq<Write>)
    ensures Run(r, a + b) == (match Run(r, a) case None => None case Some(m) => Run(m, b))
    decreases a
  {
    if a == [] {
      assert a + b == b;
    } else {
      assert (a + b)[1..] == a[1..] + b;
      var s := Step(r, a[0].0, a[0].1);
      if s.Some? { RunConcat(s.value, a[1..], b); }
    }
  }

  // Only a registered token has a pool.
  predicate Listed(r: Registry) { r.token.pool.Some? ==> r.token.admin.Some? }

  lemma {:induction false} RunKeepsListed(r: Registry, ws: seq<Write>)
    requires Listed(r) && Run(r, ws).Some?
    ensures var end := Run(r, ws).value;
            Listed(end) && (r.token.admin.Some? ==> end.token.admin.Some?) && end == r.(token := end.token)
    decreases ws
  {
    if ws != [] {
      RunKeepsListed(Step(r, ws[0].0, ws[0].1).value, ws[1..]);
    }
  }

  // ---- the writes one run emits ----------------------------------------------------------

  datatype Input = Input(deployer: Address, timelock: Option<Address>, desired: Option<Address>, reassign: bool,
                         pool: Address)

  predicate Ours(i: Input, a: Option<Address>) { a == Some(i.deployer) || (i.timelock.Some? && a == i.timelock) }

  // An omitted administrator defaults to the registry's owner.
  function Wanted(r: Registry, i: Input): Address { Or(i.desired, r.owner) }

  // The write that puts the wanted administrator in the pending slot.
  function Nomination(r: Registry, i: Input): seq<Write>
  {
    var c := r.token;
    if c.admin.None? then
      if c.pending != Some(Wanted(r, i)) then [(r.owner, ProposeAdministrator(r.owner, Wanted(r, i)))] else []
    else if i.reassign && i.desired.Some? && c.admin != i.desired then [(c.admin.value, TransferAdminRole(i.desired))]
    else []
  }

  function PendingAfter(r: Registry, i: Input): Option<Address>
  {
    if Nomination(r, i) == [] then r.token.pending else Some(Wanted(r, i))
  }

  // A deployer's acceptance must wait for a nomination that is only queued.
  predicate Accepts(r: Registry, i: Input)
  {
    && Ours(i, PendingAfter(r, i))
    && !(PendingAfter(r, i) == Some(i.deployer) && Nomination(r, i) != [] && Nomination(r, i)[0].0 != i.deployer)
  }

  function AdminAfter(r: Registry, i: Input): Option<Address>
  {
    if Accepts(r, i) then PendingAfter(r, i) else r.token.admin
  }

  predicate SetsPool(r: Registry, i: Input) { Ours(i, AdminAfter(r, i)) && r.token.pool != Some(i.pool) }

  function Plan(r: Registry, i: Input): seq<Write>
  {
    Nomination(r, i)
    + (if Accepts(r, i) then [(PendingAfter(r, i).value, AcceptAdminRole)] else [])
    + (if SetsPool(r, i) then [(AdminAfter(r, i).value, SetPool(Some(i.pool)))] else [])
  }

  // The nomination's authorizer is an identity this run can act as.
  predicate Routable(r: Registry, i: Input) { Nomination(r, i) == [] || Ours(i, Some(Nomination(r, i)[0].0)) }

  predicate DirectFirst(ws: seq<Write>, deployer: Address)
  {
    forall a, b | 0 <= a < b < |ws| :: ws[b].0 == deployer ==> ws[a].0 == deployer
  }

  function By(ws: seq<Write>, who: Address): seq<Write>
  {
    if ws == [] then [] else (if ws[0].0 == who then [ws[0]] else []) + By(ws[1..], who)
  }

  lemma {:induction false} ByConcat(a: seq<Write>, b: seq<Write>, who: Address)
    ensures By(a + b, who) == By(a, who) + By(b, who)
  {
    if a == [] {
      assert a + b == b;
    } else {
      ByHead(a, who);
      ByHead(a + b, who);
      TailOfConcat(a, b);
      ByConcat(a[1..], b, who);
      hide By;
    }
  }

  lemma ByHead(ws: seq<Write>, who: Address)
    requires ws != []
    ensures By(ws, who) == (if ws[0].0 == who then [ws[0]] else []) + By(ws[1..], who)
  {
  }

  // ---- the run itself ------------------------------------------------------------------------

  class Router {
    const owner: Address
    const deployer: Address
    const timelock: Option<Address>
    var registry: Registry  // as on chain
    var writes: seq<Write>  // queued for the timelock
    var executed: bool
    ghost var emitted: seq<Write>  // both kinds, in order

    constructor (registry: Registry, deployer: Address, timelock: Option<Address>)
      ensures this.registry == registry && owner == registry.owner && this.deployer == deployer &&
              this.timelock == timelock
      ensures writes == [] && !executed && emitted == []
    {
      this.owner, this.deployer, this.timelock, this.registry := registry.owner, deployer, timelock, registry;
      writes, executed, emitted := [], false, [];
    }

    // Ok(true): executed by the deployer.  Ok(false): queued for the timelock.
    method Route(authorizer: Address, direct: Op, queued: Op) returns (r: Result<bool, string>)
      modifies this
      ensures r.Ok? <==> (if authorizer == deployer then Step(old(registry), deployer, direct).Some?
                          else timelock == Some(authorizer))
      ensures r.Ok? && r.value ==>
                && authorizer == deployer && executed && Some(registry) == Step(old(registry), deployer, direct)
                && writes == old(writes) && emitted == old(emitted) + [(deployer, direct)]
      ensures r.Ok? && !r.value ==>
                && authorizer != deployer && executed == old(executed) && registry == old(registry)
                && writes == old(writes) + [(authorizer, queued)] && emitted == old(emitted) + [(authorizer, queued)]
      ensures r.Err? ==>
                registry == old(registry) && writes == old(writes) && emitted == old(emitted) &&
                executed == old(executed)
    {
      var direction := WriteRouting.Direct(authorizer, deployer, timelock);
      if direction.Err? { return direction; }
      if direction.value {
        var s := Step(registry, deployer, direct);
        if s.None? { return Err("direct execution failed"); }
        registry, executed, emitted := s.value, true, emitted + [(deployer, direct)];
      } else {
        writes, emitted := writes + [(authorizer, queued)], emitted + [(authorizer, queued)];
      }
      return direction;
    }
  }

  // The direct writes are executed and the rest queued, in the emitted order.
  ghost predicate Emitting(start: Registry, router: Router)
    reads router
  {
    && router.owner == start.owner
    && Run(start, By(router.emitted, router.deployer)) == Some(router.registry)
    && (router.executed <==> By(router.emitted, router.deployer) != [])
    && (router.timelock.Some? ==> router.writes == By(router.emitted, router.timelock.value))
    && (router.timelock.None? ==> router.writes == [])
    && (forall w | w in router.emitted :: w.0 == router.deployer || Some(w.0) == router.timelock)
  }

  lemma EmittingOne(start: Registry, was: seq<Write>, w: Write, deployer: Address, timelock: Option<Address>)
    requires timelock != Some(deployer)
    ensures By(was + [w], w.0) == By(was, w.0) + [w]
    ensures forall who :: who != w.0 ==> By(was + [w], who) == By(was, who)
    ensures Run(start, By(was, deployer)).Some? && w.0 == deployer ==>
              Run(start, By(was + [w], deployer)) == Step(Run(start, By(was, deployer)).value, w.0, w.1)
  {
    assert [w][1..] == [];
    forall who ensures By(was + [w], who) == By(was, who) + (if w.0 == who then [w] else []) {
      ByConcat(was, [w], who);
      assert By([w][1..], who) == [];
    }
    RunConcat(start, By(was, deployer), [w]);
  }

  method Emit(router: Router, authorizer: Address, direct: Op, queued: Op, ghost start: Registry)
    returns (r: Result<bool, string>)
    requires router.timelock != Some(router.deployer) && Emitting(start, router)
    modifies router
    ensures Emitting(start, router)
    ensures r.Ok? ==>
              router.emitted ==
              old(router.emitted) + [(authorizer, if authorizer == router.deployer then direct else queued)]
    ensures r.Ok? ==> (r.value <==> authorizer == router.deployer)
    ensures r.Ok? <==> (if authorizer == router.deployer then Step(old(router.registry), router.deployer, direct).Some?
                        else router.timelock == Some(authorizer))
    ensures r.Ok? && authorizer == router.deployer ==>
              Some(router.registry) == Step(old(router.registry), authorizer, direct)
    ensures authorizer != router.deployer ==> router.registry == old(router.registry)
  {
    EmittingOne(start, router.emitted, (authorizer, if authorizer == router.deployer then direct else queued),
                router.deployer, router.timelock);
    r := router.Route(authorizer, direct, queued);
  }

  // Propose or transfer.  `staged`: the nomination was queued, so the on-chain
  // pending administrator does not exist yet.
  method Nominate(router: Router, registry: Registry, i: Input)
    returns (r: Result<Option<Address>, string>, staged: bool)
    requires i.timelock != Some(i.deployer) && router.deployer == i.deployer && router.timelock == i.timelock
    requires router.owner == registry.owner && router.registry == registry && router.emitted == [] &&
             Emitting(registry, router)
    modifies router
    ensures Emitting(registry, router)
    ensures r.Ok? <==> Routable(registry, i)
    ensures r.Ok? ==> router.emitted == Nomination(registry, i) && r.value == PendingAfter(registry, i)
    ensures r.Ok? ==> (staged <==> Nomination(registry, i) != [] && Nomination(registry, i)[0].0 != i.deployer)
    ensures r.Ok? ==> router.registry == if staged then registry else registry.(token := Nominated(registry, i))
  {
    var admin, pending := registry.token.admin, registry.token.pending;
    var desiredAdmin := i.desired;
    staged := false;
    if admin.None? {
      if desiredAdmin.None? { desiredAdmin := Some(router.owner); }
      if pending != desiredAdmin {
        var direct := Emit(router, router.owner, ProposeAdministrator(i.deployer, desiredAdmin.value),
                           ProposeAdministrator(Or(i.timelock, ""), desiredAdmin.value), registry);
        if direct.Err? { return Err(direct.error), false; }
        staged := !direct.value;
        pending := desiredAdmin;
      }
    } else if i.reassign && admin != desiredAdmin && desiredAdmin.Some? {
      var direct := Emit(router, admin.value, TransferAdminRole(desiredAdmin), TransferAdminRole(desiredAdmin),
                         registry);
      if direct.Err? { return Err(direct.error), false; }
      staged := !direct.value;
      pending := desiredAdmin;
    }
    return Ok(pending), staged;
  }

  // registerTokenInTAR.  Ok iff the nomination can be routed and a pool the
  // deployer sets now supports the token.
  method RegisterTokenInTAR(registry: Registry, i: Input) returns (r: Result<seq<Write>, string>, router: Router)
    requires i.timelock != Some(i.deployer)
    ensures fresh(router) && router.deployer == i.deployer && router.timelock == i.timelock
    ensures Emitting(registry, router)
    ensures r.Ok? <==> Routable(registry, i) &&
                       (SetsPool(registry, i) && AdminAfter(registry, i) == Some(i.deployer) ==>
                        i.pool in registry.supporting)
    ensures r.Ok? ==> router.emitted == Plan(registry, i) && r.value == router.writes
    ensures Listed(registry) ==> (r.Err? <==> RunErrs(registry, i))
    ensures r.Ok? && Listed(registry) ==> RunReads(registry, i, router.emitted, Run(router.registry, r.value))
  {
    router := new Router(registry, i.deployer, i.timelock);
    var admin := registry.token.admin;
    var nominated, pendingStaged := Nominate(router, registry, i);
    if nominated.Err? { return Err(nominated.error), router; }
    var pending := nominated.value;
    if pending.None? {
    } else if pending != Some(i.deployer) && !(i.timelock.Some? && pending == i.timelock) {
    } else if pendingStaged && pending == Some(i.deployer) {
    } else {
      var accepted := Emit(router, pending.value, AcceptAdminRole, AcceptAdminRole, registry);
      if accepted.Err? { return Err(accepted.error), router; }
      admin := pending;
    }
    r := PointToPool(router, registry, i, admin);
    if Listed(registry) { ErrsReads(registry, i); }
    if r.Ok? && Listed(registry) { RegistrationReads(registry, i, router); }
  }

  // The direct writes and then the queued ones are the plan.
  lemma RegistrationReads(registry: Registry, i: Input, router: Router)
    requires i.timelock != Some(i.deployer) && router.deployer == i.deployer && router.timelock == i.timelock
    requires Listed(registry) && Routable(registry, i)
    requires Emitting(registry, router) && router.emitted == Plan(registry, i)
    ensures RunReads(registry, i, router.emitted, Run(router.registry, router.writes))
  {
    PlanAccepted(registry, i);
    PlanReads(registry, i);
    RunConcat(registry, By(router.emitted, i.deployer), router.writes);
  }

  // Set the pool while an identity of ours administers the token.
  method PointToPool(router: Router, registry: Registry, i: Input, admin: Option<Address>)
    returns (r: Result<seq<Write>, string>)
    requires i.timelock != Some(i.deployer) && router.deployer == i.deployer && router.timelock == i.timelock
    requires Emitting(registry, router) && admin == AdminAfter(registry, i)
    requires router.emitted == Nomination(registry, i)
               + (if Accepts(registry, i) then [(PendingAfter(registry, i).value, AcceptAdminRole)] else [])
    requires admin == Some(i.deployer) ==> router.registry.token.admin == admin
    requires router.registry.supporting == registry.supporting
    modifies router
    ensures Emitting(registry, router)
    ensures r.Ok? <==> (SetsPool(registry, i) && admin == Some(i.deployer) ==> i.pool in registry.supporting)
    ensures r.Ok? ==> router.emitted == Plan(registry, i) && r.value == router.writes
  {
    if (admin == Some(i.deployer) || (i.timelock.Some? && admin == i.timelock)) && registry.token.pool != Some(i.pool) {
      var poolSet := Emit(router, admin.value, SetPool(Some(i.pool)), SetPool(Some(i.pool)), registry);
      if poolSet.Err? { return Err(poolSet.error); }
    }
    return Ok(router.writes);
  }

  // ---- what the plan is worth -------------------------------------------------------------------

  // Every direct write comes before every queued one, so direct-then-queued is
  // the emitted order; and the registry accepts each write where it stands:
  // always, when the pool supports the token, and otherwise iff none sets it.
  lemma PlanAccepted(r: Registry, i: Input)
    requires i.timelock != Some(i.deployer) && Routable(r, i)
    ensures DirectFirst(Plan(r, i), i.deployer)
    ensures By(Plan(r, i), i.deployer) + (if i.timelock.Some? then By(Plan(r, i), i.timelock.value) else []) ==
            Plan(r, i)
    ensures Run(r, Plan(r, i)).Some? <==> (SetsPool(r, i) ==> i.pool in r.supporting)
  {
    PlanRuns(r, i);
    DirectFirstSplits(Plan(r, i), i.deployer, i.timelock);
  }

  // How many writes the deployer makes before anybody else does.
  function Leading(ws: seq<Write>, who: Address): (n: nat)
    ensures n <= |ws| && (forall k | 0 <= k < n :: ws[k].0 == who) && (n < |ws| ==> ws[n].0 != who)
  {
    if ws == [] || ws[0].0 != who then 0
    else
      assert forall k | 0 < k < |ws| :: ws[k] == ws[1..][k - 1];
      1 + Leading(ws[1..], who)
  }

  lemma DirectFirstSplits(ws: seq<Write>, deployer: Address, timelock: Option<Address>)
    requires DirectFirst(ws, deployer) && timelock != Some(deployer)
    requires forall w | w in ws :: w.0 == deployer || Some(w.0) == timelock
    ensures By(ws, deployer) + (if timelock.Some? then By(ws, timelock.value) else []) == ws
  {
    hide By;
    var n := Leading(ws, deployer);
    forall k | n <= k < |ws| ensures ws[k].0 != deployer && Some(ws[k].0) == timelock {
      assert ws[k] in ws;
      assert ws[n].0 != deployer;
    }
    assert ws == ws[..n] + ws[n..];
    if n < |ws| {
      Rejoined(ws[..n], ws[n..], deployer, timelock.value);
    } else {
      AllBy(ws, deployer);
      if timelock.Some? { NoneBy(ws, timelock.value); }
    }
  }

  lemma Rejoined(direct: seq<Write>, queued: seq<Write>, deployer: Address, timelock: Address)
    requires deployer != timelock
    requires (forall k | 0 <= k < |direct| :: direct[k].0 == deployer) &&
             (forall k | 0 <= k < |queued| :: queued[k].0 == timelock)
    ensures By(direct + queued, deployer) + By(direct + queued, timelock) == direct + queued
  {
    ByConcat(direct, queued, deployer);
    ByConcat(direct, queued, timelock);
    hide By;
    AllBy(direct, deployer);
    NoneBy(direct, timelock);
    NoneBy(queued, deployer);
    AllBy(queued, timelock);
  }

  lemma {:induction false} AllBy(ws: seq<Write>, who: Address)
    requires forall k | 0 <= k < |ws| :: ws[k].0 == who
    ensures By(ws, who) == ws
  {
    if ws != [] { AllBy(ws[1..], who); assert ws == [ws[0]] + ws[1..]; }
  }

  lemma {:induction false} NoneBy(ws: seq<Write>, who: Address)
    requires forall k | 0 <= k < |ws| :: ws[k].0 != who
    ensures By(ws, who) == []
  {
    if ws != [] { NoneBy(ws[1..], who); }
  }

  // The registry at each point of the plan.
  function Nominated(r: Registry, i: Input): Config
  {
    if Nomination(r, i) == [] then r.token
    else if r.token.admin.None? then Config(None, Some(Wanted(r, i)), None)
    else r.token.(pending := i.desired)
  }

  function Accepted(r: Registry, i: Input): Config
  {
    var c := Nominated(r, i);
    if Accepts(r, i) then c.(admin := c.pending, pending := None) else c
  }

  function Reached(r: Registry, i: Input): Registry
  {
    var c := Accepted(r, i);
    r.(token := if SetsPool(r, i) then c.(pool := Some(i.pool)) else c)
  }

  lemma PlanRuns(r: Registry, i: Input)
    requires i.timelock != Some(i.deployer) && Routable(r, i)
    ensures DirectFirst(Plan(r, i), i.deployer)
    ensures forall w | w in Plan(r, i) :: w.0 == i.deployer || Some(w.0) == i.timelock
    ensures Run(r, Plan(r, i)) == if SetsPool(r, i) && i.pool !in r.supporting then None else Some(Reached(r, i))
  {
    var a := if Accepts(r, i) then [(PendingAfter(r, i).value, AcceptAdminRole)] else [];
    var s := if SetsPool(r, i) then [(AdminAfter(r, i).value, SetPool(Some(i.pool)))] else [];
    var n := Nomination(r, i);
    NominationRuns(r, i);
    RunConcat(r, n, a);
    if a != [] { RunOne(r.(token := Nominated(r, i)), a[0]); }
    hide Run;
    assert Run(r, n + a) == Some(r.(token := Accepted(r, i))) by { if a == [] { assert n + a == n; } }
    RunConcat(r, n + a, s);
    if s == [] { assert n + a + s == n + a; } else { RunOne(r.(token := Accepted(r, i)), s[0]); }
  }

  lemma RunOne(r: Registry, w: Write)
    ensures Run(r, [w]) == Step(r, w.0, w.1)
  {
    assert [w][1..] == [];
  }

  lemma NominationRuns(r: Registry, i: Input)
    requires Routable(r, i)
    ensures |Nomination(r, i)| <= 1 && Run(r, Nomination(r, i)) == Some(r.(token := Nominated(r, i)))
  {
    var n := Nomination(r, i);
    if n != [] { RunOne(r, n[0]); }
  }

  // ---- the run read from the registry and the input ------------------------------------------------

  // Who should administer the token once this run's roles are in place: the given
  // or default administrator of an unregistered token, the given one of a token to
  // reassign, else whoever is pending.
  function Candidate(r: Registry, i: Input): Option<Address>
  {
    if r.token.admin.None? then Some(if i.desired.Some? then i.desired.value else r.owner)
    else if i.reassign && i.desired.Some? && i.desired != r.token.admin then i.desired
    else r.token.pending
  }

  // The candidate must first be named pending; a reassignment names it every time.
  predicate MustName(r: Registry, i: Input)
  {
    || Candidate(r, i) != r.token.pending
    || (r.token.admin.Some? && i.reassign && i.desired.Some? && i.desired != r.token.admin)
  }

  // Only the administrator may hand its role on; the registry's owner names the first one.
  function Namer(r: Registry): Address { if r.token.admin.Some? then r.token.admin.value else r.owner }

  // The candidate is one of ours and does not wait for a queued naming of the deployer.
  predicate Seated(r: Registry, i: Input)
  {
    Ours(i, Candidate(r, i)) && (MustName(r, i) && Namer(r) != i.deployer ==> Candidate(r, i) != Some(i.deployer))
  }

  // Where a run and its batch leave the token.
  predicate TokenReads(r: Registry, i: Input, end: Config)
  {
    // the candidate administers the token, or is left pending
    && (if Seated(r, i) then end.admin == Candidate(r, i) && end.pending.None?
        else end.admin == r.token.admin && end.pending == Candidate(r, i))
    // a token that is ours to administer points to the given pool, another keeps its own
    && end.pool == if Ours(i, end.admin) then Some(i.pool) else r.token.pool
  }

  // What a run emitted and where its direct and then its queued writes end: they
  // are refused only for a pool that must be set and does not support the token.
  ghost predicate RunReads(r: Registry, i: Input, emitted: seq<Write>, end: Option<Registry>)
  {
    && (end.None? <==>
          i.pool !in r.supporting && exists c: Config :: TokenReads(r, i, c) && c.pool != r.token.pool)
    && (end.Some? ==> end.value == r.(token := end.value.token) && TokenReads(r, i, end.value.token))
    // silent exactly when the token stands as it should and nobody is named again
    && (emitted == [] <==> TokenReads(r, i, r.token) && !MustName(r, i))
  }

  // The whole plan of any listed registry and input.
  lemma PlanReads(r: Registry, i: Input)
    requires i.timelock != Some(i.deployer) && Listed(r) && Routable(r, i)
    ensures RunReads(r, i, Plan(r, i), Run(r, Plan(r, i)))
  {
    PlanRuns(r, i);
    ReachedReads(r, i);
    assert forall c: Config :: TokenReads(r, i, c) ==> c == Reached(r, i).token;
  }

  lemma ReachedReads(r: Registry, i: Input)
    requires i.timelock != Some(i.deployer) && Listed(r)
    ensures TokenReads(r, i, Reached(r, i).token)
    ensures SetsPool(r, i) <==> Reached(r, i).token.pool != r.token.pool
    ensures MustName(r, i) <==> Nomination(r, i) != []
  {
  }

  // When a run errs: nobody of ours can name the candidate, or the deployer would
  // itself set a pool that does not support the token.
  ghost predicate RunErrs(r: Registry, i: Input)
  {
    || (MustName(r, i) && !Ours(i, Some(Namer(r))))
    || (i.pool !in r.supporting &&
          exists c: Config :: TokenReads(r, i, c) && c.admin == Some(i.deployer) && c.pool != r.token.pool)
  }

  lemma ErrsReads(r: Registry, i: Input)
    requires i.timelock != Some(i.deployer) && Listed(r)
    ensures RunErrs(r, i) <==>
            !(Routable(r, i) && (SetsPool(r, i) && AdminAfter(r, i) == Some(i.deployer) ==> i.pool in r.supporting))
  {
    ReachedReads(r, i);
    assert forall c: Config :: TokenReads(r, i, c) ==> c == Reached(r, i).token;
  }

  // ---- alternating "run" and "execute the queued batch" --------------------------------------------

  // One run and its batch; None when the run errs or the registry refuses.
  function Round(r: Registry, i: Input): Option<Registry> { if Routable(r, i) then Run(r, Plan(r, i)) else None }

  function Rounds(r: Registry, i: Input, n: nat): Option<Registry>
  {
    if n == 0 then Some(r)
    else
      match Rounds(r, i, n - 1)
      case None => None
      case Some(m) => Round(m, i)
  }

  predicate Registered(r: Registry, admin: Address, pool: Address)
  {
    r.token == Config(Some(admin), None, Some(pool))
  }

  lemma RoundReaches(r: Registry, i: Input)
    requires i.timelock != Some(i.deployer) && Routable(r, i) && (SetsPool(r, i) ==> i.pool in r.supporting)
    ensures Round(r, i) == Some(Reached(r, i))
  {
    PlanRuns(r, i);
  }

  // A registered token that is not reassigned settles in one round: a pending
  // administrator of ours takes over, the pool is replaced if the token is then
  // ours, and every later run emits nothing.
  lemma {:induction false} RegisteredSettles(r: Registry, i: Input, n: nat)
    requires i.timelock != Some(i.deployer) && Listed(r) && r.token.admin.Some? && i.pool in r.supporting && n >= 1
    requires i.reassign && i.desired.Some? ==> i.desired == r.token.admin && !Ours(i, r.token.pending)
    ensures var end, takes := Rounds(r, i, n), Ours(i, r.token.pending);
            var admin := if takes then r.token.pending else r.token.admin;
            && end.Some? && end.value.owner == r.owner && end.value.supporting == r.supporting
            && end.value.token == Config(admin, if takes then None else r.token.pending,
                                         if Ours(i, admin) then Some(i.pool) else r.token.pool)
            && Plan(end.value, i) == []
    decreases n
  {
    if n == 1 {
      assert Rounds(r, i, 0) == Some(r);
      RoundReaches(r, i);
    } else {
      RegisteredSettles(r, i, n - 1);
    }
  }

  // A token without an administrator: within two rounds the wanted identity
  // administers it and the pool is set, and every later run emits nothing.
  lemma {:induction false} SettlesInTwoRounds(r: Registry, i: Input, n: nat)
    requires i.timelock != Some(i.deployer) && r.token.admin.None? && i.pool in r.supporting && n >= 2
    requires Ours(i, Some(r.owner)) && (i.desired.None? || Ours(i, i.desired))
    ensures var end := Rounds(r, i, n);
            && end.Some? && Registered(end.value, Wanted(r, i), i.pool) && Plan(end.value, i) == []
            && end.value.owner == r.owner
    decreases n
  {
    if n == 2 {
      assert Rounds(r, i, 0) == Some(r);
      RoundReaches(r, i);
      var one := Reached(r, i);
      assert Rounds(r, i, 1) == Some(one);
      RoundReaches(one, i);
    } else {
      SettlesInTwoRounds(r, i, n - 1);
    }
  }

  // From a state the registry can be in, one round is enough unless the
  // timelock still has to nominate the deployer.
  lemma OneRoundEnough(r: Registry, i: Input)
    requires i.timelock != Some(i.deployer) && r.token.admin.None? && Listed(r) && i.pool in r.supporting
    requires Ours(i, Some(r.owner)) && (i.desired.None? || Ours(i, i.desired))
    ensures Round(r, i).Some?
    ensures Registered(Round(r, i).value, Wanted(r, i), i.pool) <==>
            !(Wanted(r, i) == i.deployer && r.owner != i.deployer && r.token.pending != Some(i.deployer))
  {
    RoundReaches(r, i);
  }

  // An outside administrator is left pending, and later runs wait for it.
  lemma {:induction false} OutsiderIsLeftPending(r: Registry, i: Input, n: nat)
    requires i.timelock != Some(i.deployer) && r.token.admin.None? && n >= 1
    requires Ours(i, Some(r.owner)) && i.desired.Some? && !Ours(i, i.desired)
    ensures var end := Rounds(r, i, n);
            && end.Some? && end.value.token.admin.None? && end.value.token.pending == i.desired &&
               Plan(end.value, i) == []
    decreases n
  {
    if n == 1 {
      assert Rounds(r, i, 0) == Some(r);
      RoundReaches(r, i);
    } else {
      OutsiderIsLeftPending(r, i, n - 1);
    }
  }

  // Reassigning an active administrator settles iff the deployer hands the role
  // to the timelock: any other transfer is staged again by every run.
  lemma {:induction false} ReassignSettlesIff(r: Registry, i: Input, n: nat)
    requires i.timelock != Some(i.deployer) && i.pool in r.supporting && n >= 1
    requires i.reassign && i.desired.Some? && Ours(i, r.token.admin) && r.token.admin != i.desired
    ensures var end := Rounds(r, i, n);
            && end.Some? && end.value.supporting == r.supporting
            && (Plan(end.value, i) == [] <==> r.token.admin == Some(i.deployer) && i.desired == i.timelock)
            && (r.token.admin == Some(i.deployer) && i.desired == i.timelock ==>
                Registered(end.value, i.desired.value, i.pool))
            && (!(r.token.admin == Some(i.deployer) && i.desired == i.timelock) ==>
                  end.value.token == Config(r.token.admin, i.desired, Some(i.pool)))
    decreases n
  {
    if n == 1 {
      assert Rounds(r, i, 0) == Some(r);
      RoundReaches(r, i);
    } else {
      ReassignSettlesIff(r, i, n - 1);
      RoundReaches(Rounds(r, i, n - 1).value, i);
    }
  }
}
