/**
 deployment/deployer.go: the submission engine.  Each round builds, simulates,
 possibly restores, assembles and submits one transaction; recoverable failures
 start another round.  The network's answers and what really happened to each
 transaction are inputs.
 */
module Submission {
  import opened Wrappers

  const SUBMIT_MAX_ATTEMPTS: nat := 3

  datatype Reply = Pending | Duplicate | TryAgainLater | FeeRejected | Rejected | Unexpected | SendFailed
  datatype Poll = PollFailed | Success(meta: bool) | BudgetFailure | OtherFailure | NotFound

  // One submitted transaction: the network's answers, and `landed`, whether it
  // takes effect in the end.  `elapsed`: its deadline had passed before waiting;
  // `cancelled`: the caller gave up before the deadline.
  datatype Tx = Tx(hash: string, reply: Reply, elapsed: bool, polls: seq<Poll>, cancelled: bool, landed: bool)

  datatype Failure = BudgetExceeded | InsufficientFee | Overloaded | TimedOut | Fatal
  datatype Outcome = Confirmed(hash: string) | Failed(why: Failure)

  predicate Undecided(p: Poll) { p.PollFailed? || p.NotFound? }

  // The first answer that settles the wait, |polls| if none does.
  function FirstDecided(polls: seq<Poll>): (k: nat)
    ensures k <= |polls| && (forall j | 0 <= j < k :: Undecided(polls[j])) && (k < |polls| ==> !Undecided(polls[k]))
  {
    if polls == [] || !Undecided(polls[0]) then 0
    else
      assert forall j | 0 < j < |polls| :: polls[j] == polls[1..][j - 1];
      1 + FirstDecided(polls[1..])
  }

  function WaitOutcome(tx: Tx): Outcome
  {
    var k := FirstDecided(tx.polls);
    if tx.elapsed then Failed(Fatal)
    else if k == |tx.polls| then Failed(if tx.cancelled then Fatal else TimedOut)
    else
      match tx.polls[k]
      case Success(meta) => if meta then Confirmed(tx.hash) else Failed(Fatal)
      case BudgetFailure => Failed(BudgetExceeded)
      case _ => Failed(Fatal)
  }

  method WaitForTransaction(tx: Tx) returns (o: Outcome)
    ensures o == WaitOutcome(tx)
  {
    if tx.elapsed { return Failed(Fatal); }
    var i := 0;
    while i < |tx.polls|
      invariant 0 <= i <= FirstDecided(tx.polls)
    {
      match tx.polls[i] {
        case PollFailed =>
        case NotFound =>
        case Success(meta) => return if meta then Confirmed(tx.hash) else Failed(Fatal);
        case BudgetFailure => return Failed(BudgetExceeded);
        case OtherFailure => return Failed(Fatal);
      }
      i := i + 1;
    }
    return Failed(if tx.cancelled then Fatal else TimedOut);
  }

  function SubmitOutcome(tx: Tx): Outcome
  {
    match tx.reply
    case Pending | Duplicate => WaitOutcome(tx)
    case TryAgainLater => Failed(Overloaded)
    case FeeRejected => Failed(InsufficientFee)
    case Rejected | Unexpected | SendFailed => Failed(Fatal)
  }

  method SignSubmitAndWait(tx: Tx) returns (o: Outcome)
    ensures o == SubmitOutcome(tx)
  {
    match tx.reply
    case TryAgainLater => o := Failed(Overloaded);
    case FeeRejected => o := Failed(InsufficientFee);
    case Rejected | Unexpected | SendFailed => o := Failed(Fatal);
    case Pending | Duplicate => o := WaitForTransaction(tx);
  }

  // ---- one round ------------------------------------------------------------------------

  datatype Simulation = SimulationFailed | Simulated(needsRestore: bool)

  // The answers of one round, in the order they are asked for.  `prepared`: the
  // restore can be built; `refetched`: the account after it can be read;
  // `assembled`: decoding, the fee cap and the rebuild succeed; `backedOff` and
  // `reread`: the pause and the account read before the next round succeed.
  datatype RoundEnv = RoundEnv(simulation: Simulation, prepared: bool, restore: Tx, refetched: bool,
                               resimulation: Simulation,
                               assembled: bool, invoke: Tx, backedOff: bool, reread: bool)

  // A failed restore fails the round with the restore's own error.
  function RestoreFailure(env: RoundEnv): Option<Failure>
  {
    if !env.prepared then Some(Fatal)
    else if SubmitOutcome(env.restore).Failed? then Some(SubmitOutcome(env.restore).why)
    else if !env.refetched || env.resimulation != Simulated(false) then Some(Fatal)
    else None
  }

  function RoundFailure(env: RoundEnv, autoRestore: bool): Option<Failure>
  {
    if env.simulation.SimulationFailed? then Some(Fatal)
    else if autoRestore && env.simulation.needsRestore && RestoreFailure(env).Some? then RestoreFailure(env)
    else if !env.assembled then Some(Fatal)
    else None
  }

  // The invocation is sent iff nothing before it fails.
  predicate Sent(env: RoundEnv, autoRestore: bool) { RoundFailure(env, autoRestore).None? }

  function RoundOutcome(env: RoundEnv, autoRestore: bool): Outcome
  {
    if Sent(env, autoRestore) then SubmitOutcome(env.invoke) else Failed(RoundFailure(env, autoRestore).value)
  }

  // ---- one round read from its answers ------------------------------------------------------

  // p is the first answer to the accepted transaction that is neither a failed
  // poll nor "not found".
  predicate Answered(tx: Tx, p: Poll)
  {
    && tx.reply in {Pending, Duplicate} && !tx.elapsed
    && exists k ::
         0 <= k < |tx.polls| && tx.polls[k] == p && forall j | 0 <= j < k :: tx.polls[j] in {PollFailed, NotFound}
  }

  predicate Expired(tx: Tx)
  {
    && tx.reply in {Pending, Duplicate} && !tx.elapsed && !tx.cancelled
    && forall j | 0 <= j < |tx.polls| :: tx.polls[j] in {PollFailed, NotFound}
  }

  // What is reported of one submitted transaction.
  predicate Reports(tx: Tx, o: Outcome)
  {
    && (o.Confirmed? <==> Answered(tx, Success(true))) && (o.Confirmed? ==> o.hash == tx.hash)
    && (o == Failed(Overloaded) <==> tx.reply == TryAgainLater)
    && (o == Failed(InsufficientFee) <==> tx.reply == FeeRejected)
    && (o == Failed(BudgetExceeded) <==> Answered(tx, BudgetFailure))
    && (o == Failed(TimedOut) <==> Expired(tx))
  }

  lemma SubmitReports(tx: Tx)
    ensures Reports(tx, SubmitOutcome(tx))
  {
    var k := FirstDecided(tx.polls);
    forall j | 0 <= j < |tx.polls| ensures Undecided(tx.polls[j]) <==> tx.polls[j] in {PollFailed, NotFound} { }
    assert forall i | 0 <= i < |tx.polls| && !Undecided(tx.polls[i]) &&
        (forall j | 0 <= j < i :: Undecided(tx.polls[j])) :: i == k;
  }

  predicate RestoreDue(env: RoundEnv, autoRestore: bool) { autoRestore && env.simulation == Simulated(true) }

  // Confirmed, and the invocation simulated once more without need of another.
  predicate Restored(env: RoundEnv)
  {
    env.prepared && Answered(env.restore, Success(true)) && env.refetched && env.resimulation == Simulated(false)
  }

  predicate Invokes(env: RoundEnv, autoRestore: bool)
  {
    env.simulation.Simulated? && (RestoreDue(env, autoRestore) ==> Restored(env)) && env.assembled
  }

  // A restore was sent and not confirmed.
  predicate RestoreFails(env: RoundEnv, autoRestore: bool)
  {
    RestoreDue(env, autoRestore) && env.prepared && !Answered(env.restore, Success(true))
  }

  // The invocation is sent exactly when all before it went well, and then its own
  // fate is reported; a failed restore reports its own, every other stop is fatal.
  predicate RoundReads(env: RoundEnv, autoRestore: bool, o: Outcome, sent: bool)
  {
    && (sent <==> Invokes(env, autoRestore))
    && (if sent then Reports(env.invoke, o)
        else if RestoreFails(env, autoRestore) then Reports(env.restore, o)
        else o == Failed(Fatal))
  }

  lemma RoundIsRead(env: RoundEnv, autoRestore: bool)
    ensures RoundReads(env, autoRestore, RoundOutcome(env, autoRestore), Sent(env, autoRestore))
  {
    SubmitReports(env.invoke);
    SubmitReports(env.restore);
    hide Answered, Expired, SubmitOutcome;
  }

  // The transaction whose fate decides the round, if any.
  function Deciding(env: RoundEnv, autoRestore: bool): Option<Tx>
  {
    if Invokes(env, autoRestore) then Some(env.invoke)
    else if RestoreFails(env, autoRestore) then Some(env.restore)
    else None
  }

  method BuildSimulateAndSubmitOnce(env: RoundEnv, autoRestore: bool) returns (o: Outcome, sent: bool)
    ensures o == RoundOutcome(env, autoRestore) && sent == Sent(env, autoRestore)
    ensures RoundReads(env, autoRestore, o, sent)
  {
    RoundIsRead(env, autoRestore);
    sent := false;
    if env.simulation.SimulationFailed? { return Failed(Fatal), sent; }
    if autoRestore && env.simulation.needsRestore {
      if !env.prepared { return Failed(Fatal), sent; }
      o := SignSubmitAndWait(env.restore);
      if o.Failed? { return; }
      if !env.refetched { return Failed(Fatal), sent; }
      if env.resimulation.SimulationFailed? { return Failed(Fatal), sent; }
      if env.resimulation.needsRestore { return Failed(Fatal), sent; }
    }
    if !env.assembled { return Failed(Fatal), sent; }
    sent := true;
    o := SignSubmitAndWait(env.invoke);
  }

  // ---- the retry loop ----------------------------------------------------------------------

  // `inflate`: the round's assembly knows of an earlier exceeded budget.
  datatype Round = Round(env: RoundEnv, attempt: nat, inflate: bool, outcome: Outcome, sent: bool)

  predicate Retryable(f: Failure) { !f.Fatal? }

  predicate GoesOn(env: RoundEnv, o: Outcome, attempt: nat)
  {
    o.Failed? && Retryable(o.why) && attempt < SUBMIT_MAX_ATTEMPTS && (o.why.Overloaded? ==> env.backedOff) &&
      env.reread
  }

  function Rounds(env: nat -> RoundEnv, autoRestore: bool, attempt: nat, inflate: bool): (r: seq<Round>)
    requires 1 <= attempt <= SUBMIT_MAX_ATTEMPTS
    ensures r != []
    decreases SUBMIT_MAX_ATTEMPTS - attempt
  {
    var o := RoundOutcome(env(attempt), autoRestore);
    [RoundAt(env, autoRestore, attempt, inflate)]
    + if GoesOn(env(attempt), o, attempt) then Rounds(env, autoRestore, attempt + 1, inflate || o.why.BudgetExceeded?)
      else []
  }

  function RoundAt(env: nat -> RoundEnv, autoRestore: bool, attempt: nat, inflate: bool): Round
  {
    Round(env(attempt), attempt, inflate, RoundOutcome(env(attempt), autoRestore), Sent(env(attempt), autoRestore))
  }

  function Last(rounds: seq<Round>): Round
    requires rounds != []
  {
    rounds[|rounds| - 1]
  }

  // A recoverable failure is reported only when the rounds ran out; a failed
  // pause or account read ends the run with an error of its own.
  function Report(last: Round): Result<string, Failure>
  {
    match last.outcome
    case Confirmed(hash) => Ok(hash)
    case Failed(why) => Err(if last.attempt == SUBMIT_MAX_ATTEMPTS then why else Fatal)
  }

  lemma FirstRound(env: nat -> RoundEnv, autoRestore: bool, attempt: nat, inflate: bool)
    requires 1 <= attempt <= SUBMIT_MAX_ATTEMPTS
    ensures var o, r := RoundOutcome(env(attempt), autoRestore), RoundAt(env, autoRestore, attempt, inflate);
            Rounds(env, autoRestore, attempt, inflate) ==
            if GoesOn(env(attempt), o, attempt)
            then [r] + Rounds(env, autoRestore, attempt + 1, inflate || o.why.BudgetExceeded?)
            else [r]
  {
    hide RoundOutcome, Sent;
  }

  // What a finished round means for the run: it goes on, or this was the last one.
  lemma AfterRound(env: nat -> RoundEnv, autoRestore: bool, attempt: nat, inflate: bool, before: seq<Round>,
                   e: RoundEnv, o: Outcome, now: seq<Round>)
    requires Remaining(env, autoRestore, attempt, inflate, before) && e == env(attempt)
    requires o == RoundOutcome(e, autoRestore) && now == before + [Round(e, attempt, inflate, o, Sent(e, autoRestore))]
    ensures match o
            case Confirmed(hash) => EndsAs(env, autoRestore, now, Ok(hash))
            case Failed(why) =>
              if why.Fatal? || attempt == SUBMIT_MAX_ATTEMPTS then EndsAs(env, autoRestore, now, Err(why))
              else if (why.Overloaded? && !e.backedOff) || !e.reread then EndsAs(env, autoRestore, now, Err(Fatal))
              else Remaining(env, autoRestore, attempt + 1, inflate || why.BudgetExceeded?, now)
  {
    FirstRound(env, autoRestore, attempt, inflate);
    RunIsRead(env, autoRestore);
    JoinOne(before, RoundAt(env, autoRestore, attempt, inflate), Rounds(env, autoRestore, attempt, inflate)[1..]);
    hide RoundOutcome, Sent, Rounds, RunReads, ResultReads;
  }

  predicate EndsAs(env: nat -> RoundEnv, autoRestore: bool, rounds: seq<Round>, r: Result<string, Failure>)
  {
    && rounds == Rounds(env, autoRestore, 1, false) && r == Report(Last(rounds))
    && RunReads(env, autoRestore, rounds) && ResultReads(rounds, r)
  }

  lemma JoinOne(before: seq<Round>, r: Round, rest: seq<Round>)
    ensures before + ([r] + rest) == before + [r] + rest && before + [r] + [] == before + [r]
    ensures Last(before + [r]) == r
  {
  }

  // The rounds done so far, with those still to come, are the whole run.
  predicate Remaining(env: nat -> RoundEnv, autoRestore: bool, attempt: nat, inflate: bool, before: seq<Round>)
  {
    && 1 <= attempt <= SUBMIT_MAX_ATTEMPTS
    && before + Rounds(env, autoRestore, attempt, inflate) == Rounds(env, autoRestore, 1, false)
  }

  lemma AllRemaining(env: nat -> RoundEnv, autoRestore: bool)
    ensures Remaining(env, autoRestore, 1, false, [])
  {
  }

  method BuildAndSubmitTransaction(env: nat -> RoundEnv, autoRestore: bool)
    returns (r: Result<string, Failure>, ghost rounds: seq<Round>)
    ensures EndsAs(env, autoRestore, rounds, r)
  {
    var prevBudgetExceeded, attempt := false, 1;
    rounds := [];
    hide *;
    AllRemaining(env, autoRestore);
    while true
      invariant 1 <= attempt <= SUBMIT_MAX_ATTEMPTS
      invariant Remaining(env, autoRestore, attempt, prevBudgetExceeded, rounds)
      decreases SUBMIT_MAX_ATTEMPTS - attempt
    {
      var answers := env(attempt);
      var o, sent := BuildSimulateAndSubmitOnce(answers, autoRestore);
      ghost var before := rounds;
      rounds := rounds + [Round(answers, attempt, prevBudgetExceeded, o, sent)];
      AfterRound(env, autoRestore, attempt, prevBudgetExceeded, before, answers, o, rounds);
      if o.Confirmed? { return Ok(o.hash), rounds; }
      if o.why.Fatal? || attempt == SUBMIT_MAX_ATTEMPTS { return Err(o.why), rounds; }
      if o.why.BudgetExceeded? { prevBudgetExceeded := true; }
      if o.why.Overloaded? && !answers.backedOff { return Err(Fatal), rounds; }
      if !answers.reread { return Err(Fatal), rounds; }
      attempt := attempt + 1;
    }
  }

  // ---- what every run keeps --------------------------------------------------------------------

  // At most three rounds, each answered by its own environment, and a new one
  // exactly after a recoverable failure that the pause and account read survive.
  lemma {:induction false} RoundsAreWarranted(env: nat -> RoundEnv, autoRestore: bool, attempt: nat, inflate: bool)
    requires 1 <= attempt <= SUBMIT_MAX_ATTEMPTS
    ensures var rounds := Rounds(env, autoRestore, attempt, inflate);
            && |rounds| <= SUBMIT_MAX_ATTEMPTS + 1 - attempt
            && (forall i | 0 <= i < |rounds| :: rounds[i] == RoundAt(env, autoRestore, attempt + i, rounds[i].inflate))
            && (forall i | 0 <= i < |rounds| :: i < |rounds| - 1 <==> Recovers(rounds[i]))
    decreases SUBMIT_MAX_ATTEMPTS - attempt
  {
    hide RoundOutcome, Sent, Rounds;
    var o := RoundOutcome(env(attempt), autoRestore);
    var rounds := Rounds(env, autoRestore, attempt, inflate);
    FirstRound(env, autoRestore, attempt, inflate);
    GoesOnRecovers(rounds[0]);
    hide Recovers;
    if GoesOn(env(attempt), o, attempt) {
      NotLast(env(attempt), o, attempt);
      var sticky := inflate || o.why.BudgetExceeded?;
      var rest := Rounds(env, autoRestore, attempt + 1, sticky);
      RoundsAreWarranted(env, autoRestore, attempt + 1, sticky);
      hide GoesOn;
      forall i | 1 <= i < |rounds|
        ensures rounds[i] == RoundAt(env, autoRestore, attempt + i, rounds[i].inflate)
        ensures i < |rounds| - 1 <==> Recovers(rounds[i])
      {
        assert rounds[i] == rest[i - 1] == RoundAt(env, autoRestore, attempt + 1 + (i - 1), rest[i - 1].inflate);
      }
    }
  }

  lemma GoesOnRecovers(r: Round)
    ensures GoesOn(r.env, r.outcome, r.attempt) <==> Recovers(r)
  {
  }

  lemma NotLast(env: RoundEnv, o: Outcome, attempt: nat)
    requires GoesOn(env, o, attempt)
    ensures o.Failed? && attempt < SUBMIT_MAX_ATTEMPTS
  {
  }

  // What each recoverable failure means: a full queue, a fee rejection, an
  // exceeded budget or an expiry of the deciding transaction, and success is the
  // invocation's own.
  lemma OutcomeMeans(env: RoundEnv, autoRestore: bool)
    ensures var o, d := RoundOutcome(env, autoRestore), Deciding(env, autoRestore);
            && (o == Failed(Overloaded) <==> d.Some? && d.value.reply.TryAgainLater?)
            && (o == Failed(InsufficientFee) <==> d.Some? && d.value.reply.FeeRejected?)
            && (o == Failed(BudgetExceeded) <==> d.Some? && Answered(d.value, BudgetFailure))
            && (o == Failed(TimedOut) <==> d.Some? && Expired(d.value))
            && (o.Confirmed? <==> Invokes(env, autoRestore) && Answered(env.invoke, Success(true)))
  {
    RoundIsRead(env, autoRestore);
    hide Answered, Expired, RoundOutcome, Sent;
  }

  predicate BudgetSeen(rounds: seq<Round>, i: nat)
    requires i <= |rounds|
  {
    exists j :: 0 <= j < i && rounds[j].outcome == Failed(BudgetExceeded)
  }

  // A round's assembly inflates exactly when an earlier round failed on its
  // budget, whatever other failures came between.
  lemma {:induction false} InflationIsSticky(env: nat -> RoundEnv, autoRestore: bool, attempt: nat, inflate: bool,
                                             i: nat)
    requires 1 <= attempt <= SUBMIT_MAX_ATTEMPTS && i < |Rounds(env, autoRestore, attempt, inflate)|
    ensures var rounds := Rounds(env, autoRestore, attempt, inflate);
            rounds[i].inflate <==> inflate || BudgetSeen(rounds, i)
    decreases i
  {
    hide RoundOutcome, Sent, Rounds, BudgetSeen;
    var o := RoundOutcome(env(attempt), autoRestore);
    var rounds := Rounds(env, autoRestore, attempt, inflate);
    FirstRound(env, autoRestore, attempt, inflate);
    if i == 0 {
      NothingSeen(rounds);
    } else {
      NotLast(env(attempt), o, attempt);
      hide GoesOn;
      var sticky := inflate || o.why.BudgetExceeded?;
      InflationIsSticky(env, autoRestore, attempt + 1, sticky, i - 1);
      SeenLater(rounds[0], Rounds(env, autoRestore, attempt + 1, sticky), i);
    }
  }

  lemma NothingSeen(rounds: seq<Round>)
    ensures !BudgetSeen(rounds, 0)
  {
  }

  lemma SeenLater(r: Round, rest: seq<Round>, i: nat)
    requires 0 < i <= |rest| + 1
    ensures BudgetSeen([r] + rest, i) <==> r.outcome == Failed(BudgetExceeded) || BudgetSeen(rest, i - 1)
  {
    var rounds := [r] + rest;
    if BudgetSeen(rest, i - 1) {
      var j :| 0 <= j < i - 1 && rest[j].outcome == Failed(BudgetExceeded);
      assert rounds[j + 1] == rest[j];
    }
    if r.outcome == Failed(BudgetExceeded) { assert rounds[0].outcome == Failed(BudgetExceeded); }
    if BudgetSeen(rounds, i) {
      var j :| 0 <= j < i && rounds[j].outcome == Failed(BudgetExceeded);
      if j > 0 { assert rest[j - 1] == rounds[j]; }
    }
  }

  // ---- the whole run read from its answers ------------------------------------------------------

  // Another round follows: a recoverable failure with attempts left, and the pause
  // and the account read went well.
  predicate Recovers(r: Round)
  {
    && r.outcome in {Failed(BudgetExceeded), Failed(InsufficientFee), Failed(Overloaded), Failed(TimedOut)}
    && r.attempt < 3 && (r.outcome == Failed(Overloaded) ==> r.env.backedOff) && r.env.reread
  }

  predicate RunReads(env: nat -> RoundEnv, autoRestore: bool, rounds: seq<Round>)
  {
    1 <= |rounds| <= 3 && forall i | 0 <= i < |rounds| :: RoundAtReads(env, autoRestore, rounds, i)
  }

  predicate RoundAtReads(env: nat -> RoundEnv, autoRestore: bool, rounds: seq<Round>, i: nat)
    requires i < |rounds|
  {
    && rounds[i].env == env(1 + i) && rounds[i].attempt == 1 + i
    && RoundReads(env(1 + i), autoRestore, rounds[i].outcome, rounds[i].sent)
    && (rounds[i].inflate <==> BudgetSeen(rounds, i))
    && (i < |rounds| - 1 <==> Recovers(rounds[i]))
  }

  // The confirmed hash; the last failure once all attempts are used up; any other
  // end is fatal.
  predicate ResultReads(rounds: seq<Round>, r: Result<string, Failure>)
    requires rounds != []
  {
    match rounds[|rounds| - 1].outcome
    case Confirmed(hash) => r == Ok(hash)
    case Failed(why) => r == Err(if |rounds| == 3 then why else Fatal)
  }

  lemma RunIsRead(env: nat -> RoundEnv, autoRestore: bool)
    ensures var rounds := Rounds(env, autoRestore, 1, false);
            RunReads(env, autoRestore, rounds) && ResultReads(rounds, Report(Last(rounds)))
  {
    var rounds := Rounds(env, autoRestore, 1, false);
    RoundsAreWarranted(env, autoRestore, 1, false);
    forall i | 0 <= i < |rounds| ensures RoundAtReads(env, autoRestore, rounds, i) {
      RoundAtIsRead(env, autoRestore, i);
    }
    hide Rounds, RoundOutcome, Sent, RoundAtReads, Recovers;
    assert rounds[|rounds| - 1].attempt == |rounds|;
  }

  lemma RoundAtIsRead(env: nat -> RoundEnv, autoRestore: bool, i: nat)
    requires i < |Rounds(env, autoRestore, 1, false)|
    ensures RoundAtReads(env, autoRestore, Rounds(env, autoRestore, 1, false), i)
  {
    RoundsAreWarranted(env, autoRestore, 1, false);
    RoundIsRead(env(1 + i), autoRestore);
    InflationIsSticky(env, autoRestore, 1, false, i);
    hide Rounds, RoundOutcome, Sent, RoundReads, BudgetSeen, Recovers;
  }

  // ---- how often the operation takes effect ------------------------------------------------------

  // The ledger agrees with the answers: a refused transaction never lands, a
  // confirmed one did, one reported failed did not.
  predicate Truthful(tx: Tx)
  {
    && (tx.reply in {TryAgainLater, FeeRejected, Rejected} ==> !tx.landed)
    && (Answered(tx, Success(true)) ==> tx.landed)
    && (Answered(tx, BudgetFailure) ==> !tx.landed)
  }

  predicate TruthfulRounds(rounds: seq<Round>) { forall r | r in rounds :: Truthful(r.env.invoke) }

  predicate TakesEffect(r: Round) { r.sent && r.env.invoke.landed }

  // Expired, replaced by another round, and landed all the same.
  predicate LandsLate(r: Round) { TakesEffect(r) && r.outcome == Failed(TimedOut) }

  function Effects(rounds: seq<Round>): nat
  {
    if rounds == [] then 0 else (if TakesEffect(rounds[0]) then 1 else 0) + Effects(rounds[1..])
  }

  function LateLandings(rounds: seq<Round>): nat
  {
    if rounds == [] then 0 else (if LandsLate(rounds[0]) then 1 else 0) + LateLandings(rounds[1..])
  }

  // Every effect is the last round's or that of an expired transaction that
  // landed late: so at most one iff expired transactions never land, or one does
  // and nothing after it.
  lemma {:induction false} EffectsAre(env: nat -> RoundEnv, autoRestore: bool, attempt: nat, inflate: bool)
    requires 1 <= attempt <= SUBMIT_MAX_ATTEMPTS
    requires TruthfulRounds(Rounds(env, autoRestore, attempt, inflate))
    ensures var rounds := Rounds(env, autoRestore, attempt, inflate);
            Effects(rounds) == LateLandings(rounds[..|rounds| - 1]) + (if TakesEffect(Last(rounds)) then 1 else 0)
    decreases SUBMIT_MAX_ATTEMPTS - attempt
  {
    hide RoundOutcome, Sent, Truthful, Rounds;
    var o := RoundOutcome(env(attempt), autoRestore);
    var rounds := Rounds(env, autoRestore, attempt, inflate);
    FirstRound(env, autoRestore, attempt, inflate);
    hide Effects, LateLandings;
    assert Truthful(rounds[0].env.invoke);
    if GoesOn(env(attempt), o, attempt) {
      var rest := Rounds(env, autoRestore, attempt + 1, inflate || o.why.BudgetExceeded?);
      assert rounds == [rounds[0]] + rest;
      assert forall r | r in rest :: r in rounds;
      EffectsAre(env, autoRestore, attempt + 1, inflate || o.why.BudgetExceeded?);
      RetriedEffect(env(attempt), autoRestore);
      EffectsPrepend(rounds[0], rest);
    } else {
      EffectsOfOne(rounds[0]);
    }
  }

  lemma EffectsOfOne(r: Round)
    ensures Effects([r]) == (if TakesEffect(r) then 1 else 0) && LateLandings([r][..0]) == 0
  {
    assert [r][1..] == [];
  }

  lemma EffectsPrepend(r: Round, rest: seq<Round>)
    requires rest != []
    ensures var all := [r] + rest;
            && Effects(all) == (if TakesEffect(r) then 1 else 0) + Effects(rest) && Last(all) == Last(rest)
            && LateLandings(all[..|all| - 1]) == (if LandsLate(r) then 1 else 0) + LateLandings(rest[..|rest| - 1])
  {
    assert ([r] + rest)[1..] == rest;
    assert ([r] + rest)[..|rest|] == [r] + rest[..|rest| - 1];
    assert ([r] + rest[..|rest| - 1])[1..] == rest[..|rest| - 1];
  }

  lemma RetriedEffect(env: RoundEnv, autoRestore: bool)
    requires Truthful(env.invoke) && RoundOutcome(env, autoRestore).Failed? &&
             Retryable(RoundOutcome(env, autoRestore).why)
    ensures Sent(env, autoRestore) && env.invoke.landed ==> RoundOutcome(env, autoRestore) == Failed(TimedOut)
  {
  }

  lemma {:induction false} NoneLate(rounds: seq<Round>)
    requires forall r | r in rounds :: !LandsLate(r)
    ensures LateLandings(rounds) == 0
  {
    if rounds != [] { NoneLate(rounds[1..]); }
  }

  // With expired transactions never landing, the operation takes effect at most
  // once, success is reported exactly for the one confirmed, and an exhausted
  // retryable failure means it never did.
  lemma AtMostOnce(env: nat -> RoundEnv, autoRestore: bool)
    requires var rounds := Rounds(env, autoRestore, 1, false);
             TruthfulRounds(rounds) && forall r | r in rounds :: !LandsLate(r)
    ensures var rounds := Rounds(env, autoRestore, 1, false);
            && |rounds| <= SUBMIT_MAX_ATTEMPTS && Effects(rounds) <= 1
            && (Last(rounds).outcome.Confirmed? ==>
                  Effects(rounds) == 1 && TakesEffect(Last(rounds)) &&
                    Last(rounds).outcome.hash == Last(rounds).env.invoke.hash)
            && (Last(rounds).outcome.Failed? && Retryable(Last(rounds).outcome.why) ==> Effects(rounds) == 0)
  {
    var rounds := Rounds(env, autoRestore, 1, false);
    var last := |rounds| - 1;
    RoundsAreWarranted(env, autoRestore, 1, false);
    EffectsAre(env, autoRestore, 1, false);
    assert rounds[last] in rounds && rounds[last] == RoundAt(env, autoRestore, 1 + last, rounds[last].inflate);
    LastEffect(rounds[last], autoRestore);
    forall r | r in rounds[..last] ensures !LandsLate(r) { assert r in rounds; }
    NoneLate(rounds[..last]);
    hide Rounds, Effects, LateLandings, RoundOutcome, Sent, TakesEffect, LandsLate;
  }

  // A round whose transaction does not land late takes effect if it is confirmed
  // and not if it may be retried.
  lemma LastEffect(r: Round, autoRestore: bool)
    requires r.outcome == RoundOutcome(r.env, autoRestore) && r.sent == Sent(r.env, autoRestore)
    requires Truthful(r.env.invoke) && !LandsLate(r)
    ensures r.outcome.Confirmed? ==> TakesEffect(r) && r.outcome.hash == r.env.invoke.hash
    ensures r.outcome.Failed? && Retryable(r.outcome.why) ==> !TakesEffect(r)
  {
    hide FirstDecided;
    if r.outcome.Failed? && Retryable(r.outcome.why) { RetriedEffect(r.env, autoRestore); }
  }

  // A transaction that expires and lands anyway is executed a second time.
  lemma LateLandingRepeats() returns (env: nat -> RoundEnv)
    ensures var rounds := Rounds(env, false, 1, false);
            TruthfulRounds(rounds) && Last(rounds).outcome.Confirmed? && Effects(rounds) == 2
  {
    var expired := Tx("a", Pending, false, [NotFound], false, true);
    var confirmed := Tx("b", Pending, false, [Success(true)], false, true);
    var first := RoundEnv(Simulated(false), false, expired, false, SimulationFailed, true, expired, true, true);
    env := attempt => if attempt == 1 then first else first.(invoke := confirmed);
    assert FirstDecided([NotFound]) == 1 && FirstDecided([Success(true)]) == 0;
    var second := Rounds(env, false, 2, false);
    assert second == [Round(env(2), 2, false, Confirmed("b"), true)];
    assert Rounds(env, false, 1, false) == [Round(first, 1, false, Failed(TimedOut), true)] + second;
    EffectsAre(env, false, 1, false);
    assert Effects(second) == 1;
  }
}
