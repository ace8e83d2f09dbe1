/**
 deployment/adapters: the router that executes an owner-gated write as the
 deployer or queues it for the timelock, over a chain it can invoke.
 */
module WriteRouting {
  import opened Wrappers
  import opened TokenPool

  class Chain {
    var world: World
    var log: seq<(Address, Op)>  // the operations executed directly, in order

    constructor (w: World)
      ensures world == w && log == []
    {
      world, log := w, [];
    }

    method Invoke(invoker: Address, op: Op) returns (ok: bool)
      modifies this
      ensures ok <==> Step(old(world), invoker, op).Some?
      ensures ok ==> world == Step(old(world), invoker, op).value && log == old(log) + [(invoker, op)]
      ensures !ok ==> world == old(world) && log == old(log)
    {
      match Step(world, invoker, op)
      case None => ok := false;
      case Some(w) =>
        world, log := w, log + [(invoker, op)];
        ok := true;
    }
  }

  datatype BatchOp = DirectMarker | Batch(writes: seq<Op>)

  function Queued(batches: seq<BatchOp>): seq<Op>
  {
    if batches == [] then []
    else (if batches[0].Batch? then batches[0].writes else []) + Queued(batches[1..])
  }

  lemma {:induction false} QueuedConcat(a: seq<BatchOp>, b: seq<BatchOp>)
    ensures Queued(a + b) == Queued(a) + Queued(b)
  {
    if a == [] {
      assert a + b == b;
    } else {
      QueuedHead(a);
      QueuedHead(a + b);
      TailOfConcat(a, b);
      QueuedConcat(a[1..], b);
      hide Queued;
    }
  }

  lemma QueuedHead(batches: seq<BatchOp>)
    requires batches != []
    ensures Queued(batches) == (if batches[0].Batch? then batches[0].writes else []) + Queued(batches[1..])
  {
  }

  // The direct-execution marker, then one batch with every queued write.
  function Batches(executed: bool, writes: seq<Op>): (b: seq<BatchOp>)
    ensures Queued(b) == writes
    ensures executed <==> DirectMarker in b
    ensures writes != [] <==> exists x :: x in b && x.Batch?
  {
    var marker := if executed then [DirectMarker] else [];
    if |writes| > 0 then
      QueuedConcat(marker, [Batch(writes)]);
      marker + [Batch(writes)]
    else marker
  }

  // The deployer executes what it may authorize itself, the timelock gets a
  // proposal, and nobody else is acted for.
  function Direct(authorizer: Address, deployer: Address, timelock: Option<Address>): Result<bool, string>
  {
    if authorizer == deployer then Ok(true)
    else if timelock == Some(authorizer) then Ok(false)
    else Err("authorizer is neither deployer nor timelock")
  }

  predicate Routable(authorizer: Address, deployer: Address, timelock: Option<Address>)
  {
    Direct(authorizer, deployer, timelock).Ok?
  }

  class Router {
    const chain: Chain
    const owner: Address
    const deployer: Address
    const timelock: Option<Address>
    var writes: seq<Op>
    var executed: bool

    constructor (chain: Chain, owner: Address, deployer: Address, timelock: Option<Address>)
      ensures this.chain == chain && this.owner == owner && this.deployer == deployer && this.timelock == timelock
      ensures writes == [] && !executed
    {
      this.chain, this.owner, this.deployer, this.timelock := chain, owner, deployer, timelock;
      writes, executed := [], false;
    }

    // Ok(true): executed by the deployer.  Ok(false): queued for the timelock.
    method Route(authorizer: Address, op: Op) returns (r: Result<bool, string>)
      modifies this, chain
      ensures r.Ok? <==> (if authorizer == deployer then Step(old(chain.world), deployer, op).Some?
                          else timelock == Some(authorizer))
      ensures r.Ok? && r.value ==>
                && authorizer == deployer && executed && writes == old(writes)
                && Step(old(chain.world), deployer, op) == Some(chain.world)
                && chain.log == old(chain.log) + [(deployer, op)]
      ensures r.Ok? && !r.value ==>
                && authorizer != deployer && timelock == Some(authorizer)
                && executed == old(executed) && writes == old(writes) + [op]
                && chain.world == old(chain.world) && chain.log == old(chain.log)
      ensures r.Err? ==>
                && executed == old(executed) && writes == old(writes)
                && chain.world == old(chain.world) && chain.log == old(chain.log)
    {
      var direct := Direct(authorizer, deployer, timelock);
      if direct.Err? { return direct; }
      if direct.value {
        var ok := chain.Invoke(deployer, op);
        if !ok { return Err("direct execution failed"); }
        executed := true;
      } else {
        writes := writes + [op];
      }
      return direct;
    }

    method Output() returns (batches: seq<BatchOp>)
      ensures Queued(batches) == writes
      ensures executed <==> DirectMarker in batches
    {
      batches := Batches(executed, writes);
    }
  }

  // Direct operations only ever executed by the deployer, on the rate limits of
  // this lane and the finality word.
  predicate OnlyLimits(op: Op) { op.SetAllowedFinality? || (op.OnLane? && op.write.SetRateLimit?) }
  ghost predicate LogOnlyLimits(was: seq<(Address, Op)>, now: seq<(Address, Op)>)
  {
    was <= now && forall i | |was| <= i < |now| :: OnlyLimits(now[i].1)
  }
}
