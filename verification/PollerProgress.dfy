/**
 ccv/destination_reader: what the poller's two loops get done.  A window and a
 retry tick are read over whole runs, from their first step to their last, with
 the other loop free to interleave.
 */
module PollerProgress {
  import opened Wrappers
  import opened AttemptPoller

  predicate OfPolling(a: Action) { a.PollBegins? || a.PollHandles? || a.PollCaches? || a.PollEnds? }

  // ---- what a run did with an event ------------------------------------------------------

  // An attempt was cached for it, or processing it failed once more.
  ghost predicate Handled(s: State, n: State, e: Event)
  {
    || (exists k :: |s.trace.appends| <= k < |n.trace.appends| && n.trace.appends[k].0 == e)
    || n.trace.failures[e] > s.trace.failures[e]
  }

  // It left the retry queue: as the oldest of a full one, or for another event of
  // its transaction.
  ghost predicate PushedOut(s: State, n: State, e: Event)
  {
    || (exists k :: && |s.trace.evictions| <= k < |n.trace.evictions|
                    && n.trace.evictions[k] != [] && n.trace.evictions[k][0].event == e)
    || n.trace.displaced[e] > s.trace.displaced[e]
  }

  predicate Grows(s: State, n: State)
  {
    && s.trace.appends <= n.trace.appends && s.trace.evictions <= n.trace.evictions
    && s.trace.failures <= n.trace.failures && s.trace.displaced <= n.trace.displaced
  }

  lemma NextGrows(hash: string -> MessageId, s: State, a: Action)
    requires Next(hash, s, a).Some?
    ensures Grows(s, Next(hash, s, a).value)
  {
    hide Add, Evicts, Displaces, Without, Checks, Find, Keys, EventsOf;
  }

  lemma StaysHandled(s: State, m: State, n: State, e: Event)
    requires Grows(s, m) && Grows(m, n)
    ensures Grows(s, n)
    ensures Handled(s, m, e) || Handled(m, n, e) ==> Handled(s, n, e)
    ensures PushedOut(s, m, e) || PushedOut(m, n, e) ==> PushedOut(s, n, e)
  {
    if exists k :: |s.trace.appends| <= k < |m.trace.appends| && m.trace.appends[k].0 == e {
      var k :| |s.trace.appends| <= k < |m.trace.appends| && m.trace.appends[k].0 == e;
      assert n.trace.appends[k].0 == e;
    }
    if exists k :: && |s.trace.evictions| <= k < |m.trace.evictions|
                   && m.trace.evictions[k] != [] && m.trace.evictions[k][0].event == e {
      var k :| && |s.trace.evictions| <= k < |m.trace.evictions|
               && m.trace.evictions[k] != [] && m.trace.evictions[k][0].event == e;
      assert n.trace.evictions[k] != [] && n.trace.evictions[k][0].event == e;
    }
    assert m.trace.failures[e] >= s.trace.failures[e] && n.trace.failures[e] >= m.trace.failures[e];
    assert m.trace.displaced[e] >= s.trace.displaced[e] && n.trace.displaced[e] >= m.trace.displaced[e];
  }

  // ---- one retry tick ------------------------------------------------------------------------

  // Where a task queued at the start of the tick can be while the tick runs.
  ghost predicate Due(s: State, t: Task)
  {
    s.retry.Draining? && ((t in s.queue && t.event.txHash in s.retry.keys) || s.retry.task == Some(t))
  }

  ghost predicate KeysOk(s: State)
  {
    s.retry.Draining? ==>
      && (forall i, j | 0 <= i < j < |s.retry.keys| :: s.retry.keys[i] != s.retry.keys[j])
      && (s.retry.task.Some? ==> s.retry.task.value.event.txHash !in s.retry.keys)
  }

  ghost predicate Chased(start: State, s: State, t: Task)
  {
    Handled(start, s, t.event) || PushedOut(start, s, t.event) || Due(s, t)
  }

  // A failed event's task may push another out of the queue, never silently.
  lemma EnqueueChases(s: State, e: Event, retries: nat, t: Task)
    requires DistinctKeys(s.queue) && |s.queue| <= RETRY_QUEUE_LIMIT && t in s.queue
    ensures var n := Enqueue(Failed(s, e), Task(e, retries));
            t in n.queue || Handled(s, n, t.event) || PushedOut(s, n, t.event)
  {
    var f, u := Failed(s, e), Task(e, retries);
    var n := Enqueue(f, u);
    AddMembers(s.queue, u);
    if t !in n.queue {
      if t.event.txHash == e.txHash {
        FindIsUnique(s.queue, t);
        if t.event == e { assert n.trace.failures[e] > s.trace.failures[e]; }
        else { assert n.trace.displaced[t.event] > s.trace.displaced[t.event]; }
      } else {
        var k := |s.trace.evictions|;
        assert n.trace.evictions[k] == s.queue && s.queue[0] == t;
      }
    }
  }

  lemma FailureHandles(s: State, n: State, e: Event)
    requires n.trace.failures == s.trace.failures + multiset{e}
    ensures Handled(s, n, e)
  {
    assert n.trace.failures[e] == s.trace.failures[e] + 1;
  }

  lemma AppendHandles(s: State, n: State, e: Event, a: Attempt)
    requires n.trace.appends == s.trace.appends + [(e, a)]
    ensures Handled(s, n, e)
  {
    assert n.trace.appends[|s.trace.appends|].0 == e;
  }

  lemma DueStep(hash: string -> MessageId, s: State, a: Action, t: Task)
    requires DistinctKeys(s.queue) && |s.queue| <= RETRY_QUEUE_LIMIT && KeysOk(s) && Due(s, t)
    requires Next(hash, s, a).Some? && !a.RetryBegins?
    ensures Chased(s, Next(hash, s, a).value, t)
  {
    var n := Next(hash, s, a).value;
    hide Add, Evicts, Displaces, Handled, PushedOut, KeysOk, Enqueue;
    match a
    case PollBegins(_, _) =>
    case PollHandles(fetched) => PollFailureChases(hash, s, fetched, t);
    case PollCaches =>
    case PollEnds =>
    case RetryPeeks => PeekChases(hash, s, t);
    case RetryRemoves => RemoveChases(hash, s, t);
    case RetryHandles(fetched) => RetryFailureChases(hash, s, fetched, t);
    case RetryCaches =>
      if s.retry.task == Some(t) { AppendHandles(s, n, t.event, s.retry.got.value); }
  }

  lemma PeekChases(hash: string -> MessageId, s: State, t: Task)
    requires DistinctKeys(s.queue) && Due(s, t) && Next(hash, s, RetryPeeks).Some?
    ensures Due(Next(hash, s, RetryPeeks).value, t)
  {
    if t.event.txHash == s.retry.keys[0] { FindIsUnique(s.queue, t); }
  }

  lemma RemoveChases(hash: string -> MessageId, s: State, t: Task)
    requires KeysOk(s) && Due(s, t) && Next(hash, s, RetryRemoves).Some?
    ensures Due(Next(hash, s, RetryRemoves).value, t)
  {
  }

  lemma PollFailureChases(hash: string -> MessageId, s: State, fetched: Option<Attempt>, t: Task)
    requires DistinctKeys(s.queue) && |s.queue| <= RETRY_QUEUE_LIMIT && Due(s, t)
    requires Next(hash, s, PollHandles(fetched)).Some?
    ensures Chased(s, Next(hash, s, PollHandles(fetched)).value, t)
  {
    hide Add, Evicts, Displaces;
    if s.poll.todo[0].Parsed? && t in s.queue { EnqueueChases(s, s.poll.todo[0].event, 0, t); }
    hide Handled, PushedOut;
    if s.poll.todo[0].Parsed? && !Checks(hash, s.poll.todo[0].event, fetched) && t in s.queue {
      var e := s.poll.todo[0].event;
      var n := Next(hash, s, PollHandles(fetched)).value;
      SameTrace(s, Enqueue(Failed(s, e), Task(e, 0)), n, t.event);
    }
  }

  lemma RetryFailureChases(hash: string -> MessageId, s: State, fetched: Option<Attempt>, t: Task)
    requires DistinctKeys(s.queue) && |s.queue| <= RETRY_QUEUE_LIMIT && Due(s, t)
    requires Next(hash, s, RetryHandles(fetched)).Some?
    ensures Chased(s, Next(hash, s, RetryHandles(fetched)).value, t)
  {
    var e, retries := s.retry.task.value.event, s.retry.task.value.retries + 1;
    var n := Next(hash, s, RetryHandles(fetched)).value;
    if !Checks(hash, e, fetched) {
      if s.retry.task == Some(t) {
        FailureHandles(s, n, e);
      } else if retries < MAX_EVENT_PROCESS_RETRIES {
        EnqueueChases(s, e, retries, t);
        hide Handled, PushedOut, Add, Evicts, Displaces;
        SameTrace(s, Enqueue(Failed(s, e), Task(e, retries)), n, t.event);
      }
    }
  }

  lemma SameTrace(s: State, m: State, n: State, e: Event)
    requires n.trace == m.trace
    ensures Handled(s, n, e) <==> Handled(s, m, e)
    ensures PushedOut(s, n, e) <==> PushedOut(s, m, e)
  {
  }

  lemma KeysStep(hash: string -> MessageId, s: State, a: Action)
    requires KeysOk(s) && Next(hash, s, a).Some? && !a.RetryBegins?
    ensures KeysOk(Next(hash, s, a).value)
  {
    hide Add, Evicts, Displaces, Without, Checks;
  }

  lemma {:induction false} TickChases(hash: string -> MessageId, start: State, s: State, actions: seq<Action>, t: Task)
    requires Inv(hash, s) && KeysOk(s) && Grows(start, s) && Chased(start, s, t)
    requires Run(hash, s, actions).Some? && forall a | a in actions :: !a.RetryBegins?
    ensures Chased(start, Run(hash, s, actions).value, t)
    decreases |actions|
  {
    if actions != [] {
      var n := Next(hash, s, actions[0]).value;
      assert actions[0] in actions;
      hide Next, Handled, PushedOut, Due, Grows, KeysOk;
      NextGrows(hash, s, actions[0]);
      NextKeeps(hash, s, actions[0]);
      KeysStep(hash, s, actions[0]);
      StaysHandled(start, s, n, t.event);
      if Due(s, t) { DueStep(hash, s, actions[0], t); }
      TickChases(hash, start, n, actions[1..], t);
    }
  }

  // A whole retry tick: every task queued when it began has by its end been cached,
  // failed once more, or been pushed out of the queue.
  lemma TickSettles(hash: string -> MessageId, start: State, actions: seq<Action>, t: Task)
    requires Inv(hash, start) && start.retry.Idle? && t in start.queue
    requires actions != [] && actions[0] == RetryBegins && forall a | a in actions[1..] :: !a.RetryBegins?
    requires Run(hash, start, actions).Some? && Run(hash, start, actions).value.retry.Idle?
    ensures var end := Run(hash, start, actions).value;
            Handled(start, end, t.event) || PushedOut(start, end, t.event)
  {
    var s := Next(hash, start, RetryBegins).value;
    NextKeeps(hash, start, RetryBegins);
    NextGrows(hash, start, RetryBegins);
    TickBegins(hash, start, t);
    hide Next, Handled, PushedOut, Grows, KeysOk;
    TickChases(hash, start, s, actions[1..], t);
  }

  lemma TickBegins(hash: string -> MessageId, start: State, t: Task)
    requires DistinctKeys(start.queue) && start.retry.Idle? && t in start.queue
    ensures var s := Next(hash, start, RetryBegins).value; KeysOk(s) && Due(s, t)
  {
    var i :| 0 <= i < |start.queue| && start.queue[i] == t;
    assert Keys(start.queue)[i] == t.event.txHash;
  }

  // ---- one polling window ----------------------------------------------------------------------

  ghost predicate Working(start: State, s: State, latest: nat, e: Event)
  {
    if s.poll.Window? then s.poll.to == latest && (Handled(start, s, e) || Parsed(e) in s.poll.todo)
    else s.lastPolled == latest && Handled(start, s, e)
  }

  lemma WorkingStep(hash: string -> MessageId, s: State, a: Action, latest: nat, e: Event)
    requires Next(hash, s, a).Some? && !a.PollBegins?
    requires s.poll.Window? && s.poll.to == latest && Parsed(e) in s.poll.todo
    ensures var n := Next(hash, s, a).value;
            n.poll.Window? && n.poll.to == latest && (Handled(s, n, e) || Parsed(e) in n.poll.todo)
  {
    hide Add, Evicts, Displaces, Without, Checks, Handled;
    var n := Next(hash, s, a).value;
    assert forall r | r in s.poll.todo :: r == s.poll.todo[0] || r in s.poll.todo[1..];
    if Parsed(e) == s.poll.todo[0] {
      if a.PollCaches? { AppendHandles(s, n, e, s.poll.got.value); }
      if a.PollHandles? && n.poll != s.poll && n.poll.got.None? { FailureHandles(s, n, e); }
    }
  }

  // The window's end, and the other loop's steps.
  lemma PositionStep(hash: string -> MessageId, s: State, a: Action, latest: nat)
    requires Next(hash, s, a).Some? && !a.PollBegins?
    requires if s.poll.Window? then s.poll.to == latest else s.lastPolled == latest
    ensures var n := Next(hash, s, a).value;
            && (if n.poll.Window? then n.poll.to == latest else n.lastPolled == latest)
            && (n.poll.Waiting? && s.poll.Window? ==> s.poll.todo == [])
            && (n.poll.Window? ==> s.poll.Window?)
  {
    hide Add, Evicts, Displaces, Without, Checks;
  }

  lemma {:induction false} WindowWorks(hash: string -> MessageId, start: State, s: State, actions: seq<Action>,
                                       latest: nat, e: Event)
    requires Grows(start, s) && Working(start, s, latest, e)
    requires Run(hash, s, actions).Some? && forall a | a in actions :: !a.PollBegins?
    ensures Working(start, Run(hash, s, actions).value, latest, e)
    decreases |actions|
  {
    if actions != [] {
      var n := Next(hash, s, actions[0]).value;
      assert actions[0] in actions;
      hide Next, Handled, PushedOut, Grows;
      NextGrows(hash, s, actions[0]);
      PositionStep(hash, s, actions[0], latest);
      StaysHandled(start, s, n, e);
      if s.poll.Window? && Parsed(e) in s.poll.todo { WorkingStep(hash, s, actions[0], latest, e); }
      WindowWorks(hash, start, n, actions[1..], latest, e);
    }
  }

  // A whole window: once it is left, polling has moved to its end, and every event
  // it returned that parses has been cached or has failed.
  lemma WindowSettles(hash: string -> MessageId, start: State, actions: seq<Action>, latest: nat, events: seq<Raw>,
                      e: Event)
    requires start.poll.Waiting? && latest > start.lastPolled && Parsed(e) in events
    requires actions != [] && actions[0] == PollBegins(latest, Ok(events))
    requires forall a | a in actions[1..] :: !a.PollBegins?
    requires Run(hash, start, actions).Some? && Run(hash, start, actions).value.poll.Waiting?
    ensures var end := Run(hash, start, actions).value;
            end.lastPolled == latest && e in end.trace.fetched && Handled(start, end, e)
  {
    var s := Next(hash, start, actions[0]).value;
    NextGrows(hash, start, actions[0]);
    assert e in EventsOf(events);
    KeepsFetched(hash, s, actions[1..], e);
    hide Next, Handled, Grows;
    WindowWorks(hash, start, s, actions[1..], latest, e);
  }

  lemma {:induction false} KeepsFetched(hash: string -> MessageId, s: State, actions: seq<Action>, e: Event)
    requires Run(hash, s, actions).Some? && e in s.trace.fetched
    ensures e in Run(hash, s, actions).value.trace.fetched
    decreases |actions|
  {
    if actions != [] { KeepsFetched(hash, Next(hash, s, actions[0]).value, actions[1..], e); }
  }

  // ---- when a processing fails, and what becomes of an answer -------------------------------------

  predicate Answers(hash: string -> MessageId, e: Event, fetched: Option<Attempt>)
  {
    match fetched case Some(a) => hash(a.message) == e.messageId case None => false
  }

  // Whatever the retry loop does in between, an answer that hashes to the event's
  // message ID is no failure and is what the polling loop caches next; any other is
  // one failure, and the event waits for its first retry.
  lemma PollAnswer(hash: string -> MessageId, s: State, fetched: Option<Attempt>, others: seq<Action>)
    requires s.poll.Window? && s.poll.todo != [] && s.poll.todo[0].Parsed? && s.poll.got.None?
    requires Run(hash, s, [PollHandles(fetched)]).Some?
    requires Run(hash, Run(hash, s, [PollHandles(fetched)]).value, others).Some?
    requires forall a | a in others :: !OfPolling(a)
    ensures var e, n := s.poll.todo[0].event, Run(hash, s, [PollHandles(fetched)]).value;
            var m := Run(hash, n, others).value;
            if Answers(hash, e, fetched) then
              && n.trace.failures == s.trace.failures && Run(hash, m, [PollCaches]).Some?
              && Run(hash, m, [PollCaches]).value.trace.appends == m.trace.appends + [(e, fetched.value)]
              && Run(hash, m, [PollCaches]).value.poll.todo == s.poll.todo[1..]
              && forall a | OfPolling(a) && Run(hash, m, [a]).Some? :: a == PollCaches
            else
              && n.trace.failures == s.trace.failures + multiset{e} && Task(e, 0) in n.queue
              && n.poll == Window(s.poll.to, s.poll.todo[1..], None) && n.trace.appends == s.trace.appends
  {
    hide Add, Evicts, Displaces;
    var e, n := s.poll.todo[0].event, Run(hash, s, [PollHandles(fetched)]).value;
    OneStep(hash, s, PollHandles(fetched));
    if !Answers(hash, e, fetched) { NewestInQueue(s.queue, Task(e, 0)); }
    OthersKeepPolling(hash, n, others);
    var m := Run(hash, n, others).value;
    OneStep(hash, m, PollCaches);
    forall a | OfPolling(a) && Run(hash, m, [a]).Some? && Answers(hash, e, fetched) ensures a == PollCaches {
      OneStep(hash, m, a);
    }
  }

  // The same for the retry loop; a failed retry is queued again until the third,
  // which gives the event up.
  lemma RetryAnswer(hash: string -> MessageId, s: State, fetched: Option<Attempt>, others: seq<Action>)
    requires s.retry.Draining? && s.retry.task.Some? && s.retry.removed && s.retry.got.None?
    requires Run(hash, s, [RetryHandles(fetched)]).Some?
    requires Run(hash, Run(hash, s, [RetryHandles(fetched)]).value, others).Some?
    requires forall a | a in others :: OfPolling(a)
    ensures var t, n := s.retry.task.value, Run(hash, s, [RetryHandles(fetched)]).value;
            var m := Run(hash, n, others).value;
            if Answers(hash, t.event, fetched) then
              && n.trace.failures == s.trace.failures && Run(hash, m, [RetryCaches]).Some?
              && Run(hash, m, [RetryCaches]).value.trace.appends == m.trace.appends + [(t.event, fetched.value)]
              && forall a | !OfPolling(a) && Run(hash, m, [a]).Some? :: a == RetryCaches
            else
              && n.trace.failures == s.trace.failures + multiset{t.event} && n.trace.appends == s.trace.appends
              && n.retry == Draining(s.retry.keys, None, false, None)
              && (if t.retries + 1 < 3 then
                    Task(t.event, t.retries + 1) in n.queue && n.trace.dropped == s.trace.dropped
                  else n.queue == s.queue && t.event in n.trace.dropped)
  {
    hide Add, Evicts, Displaces;
    var t, n := s.retry.task.value, Run(hash, s, [RetryHandles(fetched)]).value;
    OneStep(hash, s, RetryHandles(fetched));
    if !Answers(hash, t.event, fetched) { NewestInQueue(s.queue, Task(t.event, t.retries + 1)); }
    OthersKeepRetrying(hash, n, others);
    var m := Run(hash, n, others).value;
    OneStep(hash, m, RetryCaches);
    forall a | !OfPolling(a) && Run(hash, m, [a]).Some? && Answers(hash, t.event, fetched) ensures a == RetryCaches {
      OneStep(hash, m, a);
    }
  }

  lemma OneStep(hash: string -> MessageId, s: State, a: Action)
    ensures Run(hash, s, [a]) == Next(hash, s, a)
  {
    assert [a][1..] == [];
  }

  lemma NewestInQueue(q: seq<Task>, t: Task)
    ensures t in Add(q, t)
  {
  }

  lemma {:induction false} OthersKeepPolling(hash: string -> MessageId, s: State, others: seq<Action>)
    requires Run(hash, s, others).Some? && forall a | a in others :: !OfPolling(a)
    ensures Run(hash, s, others).value.poll == s.poll
    decreases |others|
  {
    hide Add, Evicts, Displaces, Without, Checks;
    if others != [] {
      assert others[0] in others;
      OthersKeepPolling(hash, Next(hash, s, others[0]).value, others[1..]);
    }
  }

  lemma {:induction false} OthersKeepRetrying(hash: string -> MessageId, s: State, others: seq<Action>)
    requires Run(hash, s, others).Some? && forall a | a in others :: OfPolling(a)
    ensures Run(hash, s, others).value.retry == s.retry
    decreases |others|
  {
    hide Add, Evicts, Displaces, Without, Checks;
    if others != [] {
      assert others[0] in others;
      OthersKeepRetrying(hash, Next(hash, s, others[0]).value, others[1..]);
    }
  }

  // ---- neither loop is ever stuck ---------------------------------------------------------------------

  // How many of its own steps a loop has left before it waits again.
  function PollLeft(p: Polling): nat
  {
    if p.Waiting? then 0 else 2 * |p.todo| + (if p.got.Some? then 0 else 1)
  }

  function RetryLeft(r: Retrying): nat
  {
    if r.Idle? then 0
    else 4 * |r.keys| + 1 + (if r.task.None? then 0 else if !r.removed then 3 else if r.got.None? then 2 else 1)
  }

  // In every reachable state each loop can step whatever the other does, its own
  // steps come to an end, and the other's leave it where it is.
  lemma LoopsAdvance(hash: string -> MessageId, s: State)
    requires Inv(hash, s)
    ensures s.poll.Window? ==> exists a :: OfPolling(a) && !a.PollBegins? && Next(hash, s, a).Some?
    ensures s.retry.Draining? ==> exists a :: !OfPolling(a) && !a.RetryBegins? && Next(hash, s, a).Some?
    ensures forall a | Next(hash, s, a).Some? ::
              var n := Next(hash, s, a).value;
              if OfPolling(a) then n.retry == s.retry && (s.poll.Window? ==> PollLeft(n.poll) < PollLeft(s.poll))
              else n.poll == s.poll && (s.retry.Draining? ==> RetryLeft(n.retry) < RetryLeft(s.retry))
  {
    if s.poll.Window? { PollCanStep(hash, s); }
    if s.retry.Draining? { RetryCanStep(hash, s); }
    forall a | Next(hash, s, a).Some?
      ensures var n := Next(hash, s, a).value;
              if OfPolling(a) then n.retry == s.retry && (s.poll.Window? ==> PollLeft(n.poll) < PollLeft(s.poll))
              else n.poll == s.poll && (s.retry.Draining? ==> RetryLeft(n.retry) < RetryLeft(s.retry))
    {
      assert LoopsOk(hash, s);
      hide Inv, LoopsOk, Next;
      if OfPolling(a) { PollCountsDown(hash, s, a); } else { RetryCountsDown(hash, s, a); }
    }
  }

  lemma PollCanStep(hash: string -> MessageId, s: State)
    requires LoopsOk(hash, s) && s.poll.Window?
    ensures exists a :: OfPolling(a) && !a.PollBegins? && Next(hash, s, a).Some?
  {
    hide Add, Evicts, Displaces, Checks;
    var a := if s.poll.todo == [] then PollEnds else if s.poll.got.Some? then PollCaches else PollHandles(None);
    assert OfPolling(a) && Next(hash, s, a).Some?;
  }

  lemma RetryCanStep(hash: string -> MessageId, s: State)
    requires LoopsOk(hash, s) && s.retry.Draining?
    ensures exists a :: !OfPolling(a) && !a.RetryBegins? && Next(hash, s, a).Some?
  {
    hide Add, Evicts, Displaces, Checks, Without;
    var r := s.retry;
    var a := if r.task.None? then RetryPeeks else if r.got.Some? then RetryCaches
             else if r.removed then RetryHandles(None) else RetryRemoves;
    assert !OfPolling(a) && Next(hash, s, a).Some?;
  }

  lemma PollCountsDown(hash: string -> MessageId, s: State, a: Action)
    requires LoopsOk(hash, s) && OfPolling(a) && Next(hash, s, a).Some?
    ensures var n := Next(hash, s, a).value;
            n.retry == s.retry && (s.poll.Window? ==> PollLeft(n.poll) < PollLeft(s.poll))
  {
    hide Add, Evicts, Displaces;
  }

  lemma RetryCountsDown(hash: string -> MessageId, s: State, a: Action)
    requires !OfPolling(a) && Next(hash, s, a).Some?
    ensures var n := Next(hash, s, a).value;
            n.poll == s.poll && (s.retry.Draining? ==> RetryLeft(n.retry) < RetryLeft(s.retry))
  {
    hide Add, Evicts, Displaces, Without;
  }

  // ---- the order of the queue and of a tick ------------------------------------------------------------

  ghost predicate Before(q: seq<Task>, a: Task, b: Task) { exists i, j :: 0 <= i < j < |q| && q[i] == a && q[j] == b }

  lemma {:induction false} WithoutOrder(q: seq<Task>, k: TxHash, a: Task, b: Task)
    requires a.event.txHash != k && b.event.txHash != k
    ensures Before(Without(q, k), a, b) <==> Before(q, a, b)
  {
    if q != [] {
      var rest, kept := q[1..], Without(q[1..], k);
      WithoutOrder(rest, k, a, b);
      hide Before;
      BeforeCons(q[0], rest, a, b);
      BeforeCons(q[0], kept, a, b);
      assert [q[0]] + rest == q;
      assert Without(q, k) == if q[0].event.txHash == k then kept else [q[0]] + kept;
      assert b in kept <==> b in rest;
    }
  }

  lemma BeforeCons(t: Task, q: seq<Task>, a: Task, b: Task)
    ensures Before([t] + q, a, b) <==> (t == a && b in q) || Before(q, a, b)
  {
    var r := [t] + q;
    if Before(r, a, b) {
      var i, j :| 0 <= i < j < |r| && r[i] == a && r[j] == b;
      assert r[j] == q[j - 1];
      if i > 0 { assert q[i - 1] == a && q[j - 1] == b; }
    }
    if t == a && b in q {
      var j :| 0 <= j < |q| && q[j] == b;
      assert r[0] == a && r[j + 1] == b;
    }
    if Before(q, a, b) {
      var i, j :| 0 <= i < j < |q| && q[i] == a && q[j] == b;
      assert r[i + 1] == a && r[j + 1] == b;
    }
  }

  lemma BeforeSnoc(q: seq<Task>, t: Task, a: Task, b: Task)
    requires b != t
    ensures Before(q + [t], a, b) <==> Before(q, a, b)
  {
    var r := q + [t];
    if Before(r, a, b) {
      var i, j :| 0 <= i < j < |r| && r[i] == a && r[j] == b;
      assert q[i] == a && q[j] == b;
    }
    if Before(q, a, b) {
      var i, j :| 0 <= i < j < |q| && q[i] == a && q[j] == b;
      assert r[i] == a && r[j] == b;
    }
  }

  lemma OldestOnce(q: seq<Task>)
    requires DistinctKeys(q) && q != []
    ensures q[0] !in q[1..]
  {
    assert forall i | 0 < i < |q| :: q[0].event.txHash != q[i].event.txHash;
  }

  // The queue is oldest first: a task put in is the newest, and those that stay
  // keep their order.
  lemma AddOrder(q: seq<Task>, t: Task, a: Task, b: Task)
    requires DistinctKeys(q) && a in Add(q, t) && b in Add(q, t)
    requires a.event.txHash != t.event.txHash && b.event.txHash != t.event.txHash
    ensures Add(q, t)[|Add(q, t)| - 1] == t
    ensures Before(Add(q, t), a, b) <==> Before(q, a, b)
  {
    var rest := if Find(q, t.event.txHash).Some? then Without(q, t.event.txHash)
                else if |q| >= RETRY_QUEUE_LIMIT then q[1..] else q;
    assert Add(q, t) == rest + [t];
    if Find(q, t.event.txHash).Some? {
      WithoutOrder(q, t.event.txHash, a, b);
    } else if |q| >= RETRY_QUEUE_LIMIT {
      OldestGone(q, a, b);
    }
    hide *;
    BeforeSnoc(rest, t, a, b);
  }

  lemma OldestGone(q: seq<Task>, a: Task, b: Task)
    requires DistinctKeys(q) && q != [] && a in q[1..]
    ensures Before(q[1..], a, b) <==> Before(q, a, b)
  {
    OldestOnce(q);
    hide *;
    assert q == [q[0]] + q[1..];
    BeforeCons(q[0], q[1..], a, b);
  }

  // Position n of the tick's snapshot: the keys from there on are left, and the
  // task in hand, if there is one, has the key just before.
  ghost predicate TickAt(snapshot: seq<Task>, s: State, n: nat)
  {
    && n <= |snapshot| && s.retry.Draining?
    && |s.retry.keys| == |snapshot| - n
    && (forall i | n <= i < |snapshot| :: s.retry.keys[i - n] == snapshot[i].event.txHash)
    && (s.retry.task.Some? ==> n > 0 && s.retry.task.value.event.txHash == snapshot[n - 1].event.txHash)
  }

  // A tick takes up the tasks queued at its start one after the other, oldest
  // first, and is over after the last; what is queued meanwhile waits.
  lemma {:induction false} TickInOrder(hash: string -> MessageId, start: State, actions: seq<Action>) returns (n: nat)
    requires start.retry.Idle? && actions != [] && actions[0] == RetryBegins
    requires forall a | a in actions[1..] :: !a.RetryBegins?
    requires Run(hash, start, actions).Some?
    ensures var s := Run(hash, start, actions).value;
            if s.retry.Idle? then n == |start.queue| else TickAt(start.queue, s, n)
    decreases |actions|
  {
    if |actions| == 1 {
      OneStep(hash, start, RetryBegins);
      assert actions == [RetryBegins];
      n := 0;
    } else {
      var init, last := actions[..|actions| - 1], actions[|actions| - 1];
      RunSnoc(hash, start, init, last);
      assert actions == init + [last] && last in actions[1..] && init[0] == actions[0];
      assert forall a | a in init[1..] :: a in actions[1..];
      n := TickInOrder(hash, start, init);
      var s := Run(hash, start, init).value;
      hide Run, TickAt, Next;
      if s.retry.Draining? { n := TickStep(hash, start.queue, s, last, n); } else { IdleStays(hash, s, last); }
    }
  }

  lemma TickStep(hash: string -> MessageId, snapshot: seq<Task>, s: State, a: Action, n: nat) returns (n': nat)
    requires TickAt(snapshot, s, n) && Next(hash, s, a).Some? && !a.RetryBegins?
    ensures var next := Next(hash, s, a).value;
            if next.retry.Idle? then n' == |snapshot| else TickAt(snapshot, next, n')
  {
    hide Add, Evicts, Displaces, Without, Checks;
    n' := if a.RetryPeeks? && s.retry.keys != [] then n + 1 else n;
  }

  lemma IdleStays(hash: string -> MessageId, s: State, a: Action)
    requires s.retry.Idle? && Next(hash, s, a).Some? && !a.RetryBegins?
    ensures Next(hash, s, a).value.retry.Idle?
  {
    hide Add, Evicts, Displaces, Without, Checks;
  }

  lemma {:induction false} RunSnoc(hash: string -> MessageId, s: State, init: seq<Action>, last: Action)
    ensures Run(hash, s, init + [last]) ==
            match Run(hash, s, init) case None => None case Some(m) => Next(hash, m, last)
    decreases |init|
  {
    var all := init + [last];
    if init == [] {
      assert all == [last];
      OneStep(hash, s, last);
    } else {
      assert all[0] == init[0] && all[1..] == init[1..] + [last];
      hide Next;
      if Next(hash, s, init[0]).Some? { RunSnoc(hash, Next(hash, s, init[0]).value, init[1..], last); }
    }
  }
}
