/**
 ccv/destination_reader: the poller object.  Its methods are the atomic steps
 its two goroutines take on the shared fields; each is one step of the state
 machine in AttemptPoller.
 */
module PollerLoops {
  import opened Wrappers
  import opened AttemptPoller

  class Poller {
    const startLedger: nat
    var lastPolledLedger: nat
    var retryQueue: seq<Task>
    var attemptCache: map<MessageId, seq<Attempt>>
    var polling: Polling
    var retrying: Retrying
    ghost var trace: Trace

    ghost function Model(): State
      reads this
    {
      State(startLedger, lastPolledLedger, retryQueue, attemptCache, polling, retrying, trace)
    }

    // The start ledger is `lookback` ledgers back, never below the minimum.
    constructor (latest: nat, lookback: nat)
      ensures Model() == Initial(startLedger)
      ensures startLedger >= MIN_LEDGER && (startLedger > MIN_LEDGER ==> startLedger + lookback == latest)
      ensures latest > lookback + MIN_LEDGER ==> startLedger > MIN_LEDGER
    {
      var start := MIN_LEDGER;
      if lookback < latest && latest - lookback > MIN_LEDGER { start := latest - lookback; }
      startLedger, lastPolledLedger, retryQueue, attemptCache := start, start, [], map[];
      polling, retrying := Waiting, Idle;
      trace := Trace([], {}, [], multiset{}, [], {}, multiset{});
    }

    // enqueueRetry: true when the queue was full and its oldest task was evicted.
    method EnqueueRetry(task: Task) returns (evicted: bool)
      modifies this
      ensures Model() == Enqueue(old(Model()), task)
      ensures evicted <==> Evicts(old(retryQueue), task)
    {
      var known := Find(retryQueue, task.event.txHash);
      evicted := known.None? && |retryQueue| >= RETRY_QUEUE_LIMIT;
      trace := Enqueue(Model(), task).trace;
      if known.Some? { retryQueue := Without(retryQueue, task.event.txHash); }
      else if evicted { retryQueue := retryQueue[1..]; }
      retryQueue := retryQueue + [task];
    }

    // The critical section of processExecutionStateChanged.
    method CacheAttempt(event: Event, attempt: Attempt)
      modifies this
      ensures Model() == Append(old(Model()), event, attempt)
    {
      var attempts := if event.messageId in attemptCache then attemptCache[event.messageId] else [];
      attempts := attempts + [attempt];
      attemptCache := attemptCache[event.messageId := attempts];
      trace := trace.(appends := trace.appends + [(event, attempt)]);
    }

    // pollForEvents up to the loop over the window's events.
    method BeginPoll(hash: string -> MessageId, latest: nat, events: Result<seq<Raw>, string>)
      requires polling.Waiting?
      modifies this
      ensures Some(Model()) == Next(hash, old(Model()), PollBegins(latest, events))
    {
      if latest <= lastPolledLedger { return; }
      if events.Err? { return; }
      trace := trace.(windows := trace.windows + [(lastPolledLedger, latest)],
                      fetched := trace.fetched + EventsOf(events.value));
      polling := Window(latest, events.value, None);
    }

    // One event of the window: fetched and checked, or queued for a retry.
    method HandleEvent(hash: string -> MessageId, fetched: Option<Attempt>)
      requires polling.Window? && polling.todo != [] && polling.got.None?
      modifies this
      ensures Some(Model()) == Next(hash, old(Model()), PollHandles(fetched))
    {
      hide Add, Evicts, Displaces, Without;
      var to, todo := polling.to, polling.todo;
      match todo[0]
      case Malformed => polling := Window(to, todo[1..], None);
      case Parsed(event) =>
        if fetched.Some? && hash(fetched.value.message) == event.messageId {
          polling := Window(to, todo, fetched);
        } else {
          trace := trace.(failures := trace.failures + multiset{event});
          var evicted := EnqueueRetry(Task(event, 0));
          polling := Window(to, todo[1..], None);
        }
    }

    method CacheEvent(hash: string -> MessageId)
      requires polling.Window? && polling.todo != [] && polling.todo[0].Parsed? && polling.got.Some?
      modifies this
      ensures Some(Model()) == Next(hash, old(Model()), PollCaches)
    {
      CacheAttempt(polling.todo[0].event, polling.got.value);
      polling := Window(polling.to, polling.todo[1..], None);
    }

    method EndPoll(hash: string -> MessageId)
      requires polling.Window? && polling.todo == []
      modifies this
      ensures Some(Model()) == Next(hash, old(Model()), PollEnds)
    {
      lastPolledLedger := polling.to;
      polling := Waiting;
    }

    // processRetries: the keys pending at the start of the tick, oldest first.
    method BeginRetries(hash: string -> MessageId)
      requires retrying.Idle?
      modifies this
      ensures Some(Model()) == Next(hash, old(Model()), RetryBegins)
    {
      var keys: seq<TxHash> := [];
      for i := 0 to |retryQueue|
        invariant keys == Keys(retryQueue)[..i] && Model() == old(Model())
      {
        keys := keys + [retryQueue[i].event.txHash];
      }
      assert keys == Keys(retryQueue);
      retrying := Draining(keys, None, false, None);
    }

    method PeekTask(hash: string -> MessageId)
      requires retrying.Draining? && retrying.task.None?
      modifies this
      ensures Some(Model()) == Next(hash, old(Model()), RetryPeeks)
    {
      if retrying.keys == [] { retrying := Idle; return; }
      retrying := Draining(retrying.keys[1..], Find(retryQueue, retrying.keys[0]), false, None);
    }

    method RemoveTask(hash: string -> MessageId)
      requires retrying.Draining? && retrying.task.Some? && !retrying.removed
      modifies this
      ensures Some(Model()) == Next(hash, old(Model()), RetryRemoves)
    {
      var event := retrying.task.value.event;
      trace := trace.(displaced := trace.displaced + Displaces(retryQueue, event.txHash, event));
      retryQueue := Without(retryQueue, event.txHash);
      retrying := Draining(retrying.keys, retrying.task, true, None);
    }

    method HandleTask(hash: string -> MessageId, fetched: Option<Attempt>)
      requires retrying.Draining? && retrying.task.Some? && retrying.removed && retrying.got.None?
      modifies this
      ensures Some(Model()) == Next(hash, old(Model()), RetryHandles(fetched))
    {
      hide Add, Evicts, Displaces, Without;
      var keys, task := retrying.keys, retrying.task.value;
      if fetched.Some? && hash(fetched.value.message) == task.event.messageId {
        retrying := Draining(keys, Some(task), true, fetched);
        return;
      }
      trace := trace.(failures := trace.failures + multiset{task.event});
      task := task.(retries := task.retries + 1);
      if task.retries >= MAX_EVENT_PROCESS_RETRIES {
        trace := trace.(dropped := trace.dropped + {task.event});
      } else {
        var evicted := EnqueueRetry(task);
      }
      retrying := Draining(keys, None, false, None);
    }

    method CacheTask(hash: string -> MessageId)
      requires retrying.Draining? && retrying.task.Some? && retrying.got.Some?
      modifies this
      ensures Some(Model()) == Next(hash, old(Model()), RetryCaches)
    {
      CacheAttempt(retrying.task.value.event, retrying.got.value);
      retrying := Draining(retrying.keys, None, false, None);
    }

    // GetExecutionAttempts: a copy of what is cached for the message, and in a
    // reachable state exactly what the loops cached for it, in order.
    method GetExecutionAttempts(hash: string -> MessageId, message: string) returns (r: seq<Attempt>)
      ensures Inv(hash, Model()) ==> r == Group(trace.appends, hash(message))
    {
      var msgId := hash(message);
      if msgId !in attemptCache { return []; }
      var attempts := attemptCache[msgId];
      r := [];
      for i := 0 to |attempts|
        invariant r == attempts[..i]
      {
        r := r + [attempts[i]];
      }
    }
  }
}
