/**
 ccv/destination_reader: the execution-attempt poller as a state machine.  The
 polling loop and the retry loop interleave at every access to shared state:
 the retry queue (a bounded LRU keyed by transaction hash) and the attempt
 cache (read, extended and stored back under one lock).
 */
module AttemptPoller {
  import opened Wrappers

  const RETRY_QUEUE_LIMIT: nat := 64
  const MAX_EVENT_PROCESS_RETRIES: nat := 3
  const MIN_LEDGER: nat := 7

  type MessageId = string
  type TxHash = string

  datatype Event = Event(position: nat, txHash: TxHash, messageId: MessageId)
  datatype Raw = Parsed(event: Event) | Malformed
  datatype Attempt = Attempt(message: string, ccvs: seq<string>, results: seq<string>, gasLimit: nat)
  datatype Task = Task(event: Event, retries: nat)

  // Control points of the two loops.  `got`: fetched and checked, not yet cached.
  datatype Polling = Waiting | Window(to: nat, todo: seq<Raw>, got: Option<Attempt>)
  datatype Retrying = Idle | Draining(keys: seq<TxHash>, task: Option<Task>, removed: bool, got: Option<Attempt>)

  // What has happened, for stating properties only.
  datatype Trace = Trace(
    windows: seq<(nat, nat)>,          // windows fetched, in order
    fetched: set<Event>,               // parsable events those windows returned
    appends: seq<(Event, Attempt)>,    // attempts cached, in order
    failures: multiset<Event>,         // failed processings
    evictions: seq<seq<Task>>,         // the whole queue at each eviction
    dropped: set<Event>,               // given up after the last retry
    displaced: multiset<Event>)        // pushed out by another event of the same transaction

  datatype State = State(startLedger: nat, lastPolled: nat, queue: seq<Task>, cache: map<MessageId, seq<Attempt>>,
                         poll: Polling, retry: Retrying, trace: Trace)

  datatype Action =
    | PollBegins(latest: nat, events: Result<seq<Raw>, string>)
    | PollHandles(fetched: Option<Attempt>)
    | PollCaches
    | PollEnds
    | RetryBegins
    | RetryPeeks
    | RetryRemoves
    | RetryHandles(fetched: Option<Attempt>)
    | RetryCaches

  // ---- the retry queue, oldest first ----------------------------------------------------

  function Find(q: seq<Task>, k: TxHash): (t: Option<Task>)
    ensures t.Some? ==> t.value in q && t.value.event.txHash == k
    ensures t.None? ==> forall u | u in q :: u.event.txHash != k
  {
    if q == [] then None else if q[0].event.txHash == k then Some(q[0]) else Find(q[1..], k)
  }

  function Without(q: seq<Task>, k: TxHash): (r: seq<Task>)
    ensures |r| <= |q| && (Find(q, k).Some? ==> |r| < |q|)
    ensures forall t :: t in r <==> t in q && t.event.txHash != k
  {
    if q == [] then [] else (if q[0].event.txHash == k then [] else [q[0]]) + Without(q[1..], k)
  }

  function Keys(q: seq<Task>): seq<TxHash> { seq(|q|, i requires 0 <= i < |q| => q[i].event.txHash) }

  // LRU Add: an existing key is replaced and becomes the newest; a new one
  // pushes the oldest out of a full queue.
  function Add(q: seq<Task>, t: Task): seq<Task>
  {
    if Find(q, t.event.txHash).Some? then Without(q, t.event.txHash) + [t]
    else if |q| >= RETRY_QUEUE_LIMIT then q[1..] + [t]
    else q + [t]
  }

  predicate Evicts(q: seq<Task>, t: Task) { Find(q, t.event.txHash).None? && |q| >= RETRY_QUEUE_LIMIT }

  // The event a write to key k takes out of the queue, if it is not `e`.
  function Displaces(q: seq<Task>, k: TxHash, e: Event): multiset<Event>
  {
    var t := Find(q, k);
    if t.Some? && t.value.event != e then multiset{t.value.event} else multiset{}
  }

  function Enqueue(s: State, t: Task): State
  {
    s.(queue := Add(s.queue, t),
       trace := s.trace.(evictions := if Evicts(s.queue, t) then s.trace.evictions + [s.queue] else s.trace.evictions,
                         displaced := s.trace.displaced + Displaces(s.queue, t.event.txHash, t.event)))
  }

  function Append(s: State, e: Event, a: Attempt): State
  {
    var attempts := if e.messageId in s.cache then s.cache[e.messageId] else [];
    s.(cache := s.cache[e.messageId := attempts + [a]], trace := s.trace.(appends := s.trace.appends + [(e, a)]))
  }

  function Failed(s: State, e: Event): State { s.(trace := s.trace.(failures := s.trace.failures + multiset{e})) }

  function EventsOf(raws: seq<Raw>): set<Event> { set r | r in raws && r.Parsed? :: r.event }

  // ---- one atomic step; None when the loop is not at that point ----------------------------

  // A processing succeeds when the transaction yields an attempt whose message
  // hashes to the event's message ID.
  predicate Checks(hash: string -> MessageId, e: Event, fetched: Option<Attempt>)
  {
    fetched.Some? && hash(fetched.value.message) == e.messageId
  }

  function PollNext(hash: string -> MessageId, s: State, a: Action): Option<State>
  {
    match (s.poll, a)
    case (Waiting, PollBegins(latest, events)) =>
      if latest <= s.lastPolled || events.Err? then Some(s)
      else Some(s.(poll := Window(latest, events.value, None),
                   trace := s.trace.(windows := s.trace.windows + [(s.lastPolled, latest)],
                                     fetched := s.trace.fetched + EventsOf(events.value))))
    case (Window(to, todo, got), PollHandles(fetched)) =>
      if todo == [] || got.Some? then None
      else if todo[0].Malformed? then Some(s.(poll := Window(to, todo[1..], None)))
      else if Checks(hash, todo[0].event, fetched) then Some(s.(poll := Window(to, todo, fetched)))
      else Some(Enqueue(Failed(s, todo[0].event), Task(todo[0].event, 0)).(poll := Window(to, todo[1..], None)))
    case (Window(to, todo, got), PollCaches) =>
      if todo == [] || got.None? || todo[0].Malformed? then None
      else Some(Append(s, todo[0].event, got.value).(poll := Window(to, todo[1..], None)))
    case (Window(to, todo, got), PollEnds) =>
      if todo == [] then Some(s.(lastPolled := to, poll := Waiting)) else None
    case _ => None
  }

  function RetryNext(hash: string -> MessageId, s: State, a: Action): Option<State>
  {
    match (s.retry, a)
    case (Idle, RetryBegins) => Some(s.(retry := Draining(Keys(s.queue), None, false, None)))
    case (Draining(keys, task, removed, got), RetryPeeks) =>
      if task.Some? then None
      else if keys == [] then Some(s.(retry := Idle))
      else Some(s.(retry := Draining(keys[1..], Find(s.queue, keys[0]), false, None)))
    case (Draining(keys, task, removed, got), RetryRemoves) =>
      if task.None? || removed then None
      else
        var k := task.value.event.txHash;
        Some(s.(queue := Without(s.queue, k), retry := Draining(keys, task, true, None),
                trace := s.trace.(displaced := s.trace.displaced + Displaces(s.queue, k, task.value.event))))
    case (Draining(keys, task, removed, got), RetryHandles(fetched)) =>
      if task.None? || !removed || got.Some? then None
      else
        var e, retries, next := task.value.event, task.value.retries + 1, Draining(keys, None, false, None);
        if Checks(hash, e, fetched) then Some(s.(retry := Draining(keys, task, true, fetched)))
        else if retries >= MAX_EVENT_PROCESS_RETRIES then
          var f := Failed(s, e);
          Some(f.(retry := next, trace := f.trace.(dropped := f.trace.dropped + {e})))
        else Some(Enqueue(Failed(s, e), Task(e, retries)).(retry := next))
    case (Draining(keys, task, removed, got), RetryCaches) =>
      if task.None? || got.None? then None
      else Some(Append(s, task.value.event, got.value).(retry := Draining(keys, None, false, None)))
    case _ => None
  }

  function Next(hash: string -> MessageId, s: State, a: Action): Option<State>
  {
    if a.PollBegins? || a.PollHandles? || a.PollCaches? ||
      a.PollEnds? then PollNext(hash, s, a) else RetryNext(hash, s, a)
  }

  function Initial(startLedger: nat): State
  {
    State(startLedger, startLedger, [], map[], Waiting, Idle, Trace([], {}, [], multiset{}, [], {}, multiset{}))
  }

  // Any interleaving of the two loops.
  function Run(hash: string -> MessageId, s: State, actions: seq<Action>): Option<State>
    decreases |actions|
  {
    if actions == [] then Some(s)
    else
      match Next(hash, s, actions[0])
      case None => None
      case Some(n) => Run(hash, n, actions[1..])
  }

  // ---- what every reachable state keeps ------------------------------------------------------

  predicate Chained(windows: seq<(nat, nat)>, start: nat, end: nat)
  {
    if windows == [] then start == end
    else
      var last := windows[|windows| - 1];
      last.1 == end && last.0 < end && Chained(windows[..|windows| - 1], start, last.0)
  }

  predicate TaskOk(s: State, t: Task)
  {
    t.retries < MAX_EVENT_PROCESS_RETRIES && t.event in s.trace.fetched && s.trace.failures[t.event] > t.retries
  }

  predicate DistinctKeys(q: seq<Task>) { forall i, j | 0 <= i < j < |q| :: q[i].event.txHash != q[j].event.txHash }

  predicate QueueOk(s: State)
  {
    |s.queue| <= RETRY_QUEUE_LIMIT && DistinctKeys(s.queue) && forall t | t in s.queue :: TaskOk(s, t)
  }

  predicate LoopsOk(hash: string -> MessageId, s: State)
  {
    && (s.poll.Window? ==>
          && EventsOf(s.poll.todo) <= s.trace.fetched
          && (s.poll.got.Some? ==> s.poll.todo != [] && s.poll.todo[0].Parsed?
                                   && Checks(hash, s.poll.todo[0].event, s.poll.got)))
    && (s.retry.Draining? ==>
          && (s.retry.task.Some? ==> TaskOk(s, s.retry.task.value))
          && (s.retry.got.Some? ==> s.retry.task.Some? && Checks(hash, s.retry.task.value.event, s.retry.got)))
  }

  predicate WindowsOk(s: State)
  {
    Chained(s.trace.windows, s.startLedger, if s.poll.Window? then s.poll.to else s.lastPolled)
    && (s.poll.Window? ==> s.trace.windows != [] && s.trace.windows[|s.trace.windows| - 1].0 == s.lastPolled)
  }

  // The attempts of one message, in the order they were cached.
  function Group(appends: seq<(Event, Attempt)>, id: MessageId): seq<Attempt>
  {
    if appends == [] then []
    else
      var last := appends[|appends| - 1];
      Group(appends[..|appends| - 1], id) + (if last.0.messageId == id then [last.1] else [])
  }

  ghost predicate CacheOk(hash: string -> MessageId, s: State)
  {
    && (forall id: MessageId :: (if id in s.cache then s.cache[id] else []) == Group(s.trace.appends, id))
    && (forall id | id in s.cache :: s.cache[id] != [])
    && (forall p | p in s.trace.appends :: hash(p.1.message) == p.0.messageId && p.0 in s.trace.fetched)
  }

  predicate Cached(s: State, e: Event) { exists p :: p in s.trace.appends && p.0 == e }
  predicate InFlight(s: State, e: Event)
  {
    (s.poll.Window? && Parsed(e) in s.poll.todo) ||
      (s.retry.Draining? && s.retry.task.Some? && s.retry.task.value.event == e)
  }
  predicate Queued(s: State, e: Event) { exists t :: t in s.queue && t.event == e }
  predicate Evicted(s: State, e: Event) { exists q: seq<Task> :: q in s.trace.evictions && q != [] && q[0].event == e }

  // Where a fetched event can be.
  predicate Accounted(s: State, e: Event)
  {
    Cached(s, e) || InFlight(s, e) || Queued(s, e) || Evicted(s, e) || e in s.trace.dropped || e in s.trace.displaced
  }

  predicate LossesOk(s: State)
  {
    && (forall q | q in s.trace.evictions :: |q| == RETRY_QUEUE_LIMIT)
    && (forall e | e in s.trace.dropped :: s.trace.failures[e] > MAX_EVENT_PROCESS_RETRIES)
    && (forall e | e in s.trace.displaced :: SharesTransaction(s, e))
  }

  predicate SharesTransaction(s: State, e: Event)
  {
    e in s.trace.fetched && exists o :: o in s.trace.fetched && o != e && o.txHash == e.txHash
  }

  ghost predicate Inv(hash: string -> MessageId, s: State)
  {
    && QueueOk(s) && LoopsOk(hash, s) && WindowsOk(s) && CacheOk(hash, s) && LossesOk(s)
    && (forall e | e in s.trace.fetched :: Accounted(s, e))
  }

  // ---- one shared access at a time ---------------------------------------------------------

  lemma {:induction false} WithoutKeepsKeys(q: seq<Task>, k: TxHash)
    requires DistinctKeys(q)
    ensures DistinctKeys(Without(q, k))
  {
    if q != [] {
      assert forall i | 0 <= i < |q| - 1 :: q[1..][i] == q[i + 1];
      WithoutKeepsKeys(q[1..], k);
    }
  }

  lemma {:induction false} FindIsUnique(q: seq<Task>, t: Task)
    requires DistinctKeys(q) && t in q
    ensures Find(q, t.event.txHash) == Some(t)
  {
    if q[0] != t {
      assert forall i | 0 <= i < |q| - 1 :: q[1..][i] == q[i + 1];
      var i :| 0 <= i < |q| && q[i] == t;
      assert q[0].event.txHash != q[i].event.txHash;
      FindIsUnique(q[1..], t);
    }
  }

  // What a step may do to the events' whereabouts.
  predicate Keeps(s: State, n: State, e: Event)
  {
    && (Cached(s, e) ==> Cached(n, e)) && (Evicted(s, e) ==> Evicted(n, e))
    && (e in s.trace.dropped ==> e in n.trace.dropped) && (e in s.trace.displaced ==> e in n.trace.displaced)
    && (Queued(s, e) ==> Accounted(n, e))
  }

  lemma AddMembers(q: seq<Task>, t: Task)
    requires DistinctKeys(q) && |q| <= RETRY_QUEUE_LIMIT
    ensures DistinctKeys(Add(q, t)) && |Add(q, t)| <= RETRY_QUEUE_LIMIT && t in Add(q, t)
    ensures forall u | u in Add(q, t) :: u == t || u in q
    ensures forall u | u in q :: u in Add(q, t) || u.event.txHash == t.event.txHash || (Evicts(q, t) && u == q[0])
  {
    var k := t.event.txHash;
    if Find(q, k).Some? {
      WithoutKeepsKeys(q, k);
    } else if |q| >= RETRY_QUEUE_LIMIT {
      assert forall u | u in q :: u == q[0] || u in q[1..];
    }
  }

  lemma EnqueueKeeps(s: State, t: Task)
    requires QueueOk(s) && LossesOk(s) && TaskOk(s, t)
    ensures var n := Enqueue(s, t);
            && QueueOk(n) && LossesOk(n) && Queued(n, t.event)
            && forall e :: Keeps(s, n, e)
  {
    var n := Enqueue(s, t);
    AddMembers(s.queue, t);
    assert t in n.queue && t.event == t.event;
    forall u | u in n.queue ensures TaskOk(n, u) { assert u == t || TaskOk(s, u); }
    forall q | q in n.trace.evictions ensures |q| == RETRY_QUEUE_LIMIT { }
    forall e | e in n.trace.displaced ensures SharesTransaction(n, e) {
      if e in s.trace.displaced { assert SharesTransaction(s, e); }
      else { var o := Find(s.queue, t.event.txHash).value; assert TaskOk(s, o); }
    }
    forall e ensures Keeps(s, n, e) {
      if Evicted(s, e) {
        var q: seq<Task> :| q in s.trace.evictions && q != [] && q[0].event == e;
        assert q in n.trace.evictions;
      }
      if Queued(s, e) {
        var u :| u in s.queue && u.event == e;
        if u in n.queue {
        } else if u.event.txHash == t.event.txHash {
          FindIsUnique(s.queue, u);
        } else {
          assert s.queue in n.trace.evictions;
        }
      }
    }
  }

  lemma RemoveKeeps(s: State, n: State)
    requires QueueOk(s) && LossesOk(s) && s.retry.Draining? && s.retry.task.Some? && TaskOk(s, s.retry.task.value)
    requires var t := s.retry.task.value;
             n == s.(queue := Without(s.queue, t.event.txHash), retry := Draining(s.retry.keys, Some(t), true, None),
                     trace := s.trace.(displaced := s.trace.displaced + Displaces(s.queue, t.event.txHash, t.event)))
    ensures QueueOk(n) && LossesOk(n) && forall e :: Keeps(s, n, e)
  {
    var t := s.retry.task.value;
    WithoutKeepsKeys(s.queue, t.event.txHash);
    forall u | u in n.queue ensures TaskOk(n, u) { assert TaskOk(s, u); }
    forall e | e in n.trace.displaced ensures SharesTransaction(n, e) {
      if e in s.trace.displaced { assert SharesTransaction(s, e); }
      else { var o := Find(s.queue, t.event.txHash).value; assert TaskOk(s, o); }
    }
    forall e ensures Keeps(s, n, e) {
      if Queued(s, e) {
        var u :| u in s.queue && u.event == e;
        if u.event.txHash == t.event.txHash { FindIsUnique(s.queue, u); } else { assert u in n.queue; }
      }
    }
  }

  lemma FailedKeeps(s: State, e: Event)
    requires QueueOk(s) && LossesOk(s)
    ensures QueueOk(Failed(s, e)) && LossesOk(Failed(s, e)) && forall o :: Keeps(s, Failed(s, e), o)
    ensures forall t :: TaskOk(s, t) ==> TaskOk(Failed(s, e), t)
  {
    var n := Failed(s, e);
    forall t | t in n.queue ensures TaskOk(n, t) { assert TaskOk(s, t); }
    forall x | x in n.trace.displaced ensures SharesTransaction(n, x) { assert SharesTransaction(s, x); }
    forall o ensures Keeps(s, n, o) {
      if Queued(s, o) { var u :| u in s.queue && u.event == o; assert u in n.queue; }
    }
  }

  lemma AppendKeeps(s: State, e: Event, a: Attempt)
    requires QueueOk(s) && LossesOk(s)
    ensures var n := Append(s, e, a);
            QueueOk(n) && LossesOk(n) && Cached(n, e) && forall o :: Keeps(s, n, o)
    ensures forall t :: TaskOk(s, t) ==> TaskOk(Append(s, e, a), t)
  {
    var n := Append(s, e, a);
    assert (e, a) in n.trace.appends;
    forall t | t in n.queue ensures TaskOk(n, t) { assert TaskOk(s, t); }
    forall x | x in n.trace.displaced ensures SharesTransaction(n, x) { assert SharesTransaction(s, x); }
    forall o ensures Keeps(s, n, o) {
      if Queued(s, o) { var u :| u in s.queue && u.event == o; assert u in n.queue; }
      if Cached(s, o) { var p :| p in s.trace.appends && p.0 == o; assert p in n.trace.appends; }
    }
  }

  lemma AppendCaches(hash: string -> MessageId, s: State, e: Event, a: Attempt)
    requires CacheOk(hash, s) && e in s.trace.fetched && hash(a.message) == e.messageId
    ensures CacheOk(hash, Append(s, e, a))
  {
    hide Group;
    var n := Append(s, e, a);
    forall id: MessageId ensures (if id in n.cache then n.cache[id] else []) == Group(n.trace.appends, id) {
      GroupStep(s.trace.appends, (e, a), id);
      assert (if id in s.cache then s.cache[id] else []) == Group(s.trace.appends, id);
    }
    forall p | p in n.trace.appends ensures hash(p.1.message) == p.0.messageId && p.0 in n.trace.fetched {
      assert p == (e, a) || p in s.trace.appends;
    }
  }

  lemma GroupStep(appends: seq<(Event, Attempt)>, last: (Event, Attempt), id: MessageId)
    ensures Group(appends + [last], id) == Group(appends, id) + (if last.0.messageId == id then [last.1] else [])
  {
    assert (appends + [last])[..|appends|] == appends;
  }

  lemma SameCache(hash: string -> MessageId, s: State, n: State)
    requires CacheOk(hash, s)
    requires n.cache == s.cache && n.trace.appends == s.trace.appends && n.trace.fetched == s.trace.fetched
    ensures CacheOk(hash, n)
  {
    hide Group;
    forall id: MessageId ensures (if id in n.cache then n.cache[id] else []) == Group(n.trace.appends, id) {
      assert (if id in s.cache then s.cache[id] else []) == Group(s.trace.appends, id);
    }
  }

  lemma SameWindows(s: State, n: State)
    requires WindowsOk(s)
    requires n.trace.windows == s.trace.windows && n.startLedger == s.startLedger && n.lastPolled == s.lastPolled
    requires n.poll == s.poll || (n.poll.Window? && s.poll.Window? && n.poll.to == s.poll.to)
    ensures WindowsOk(n)
  {
    hide Chained;
  }

  // ---- every step keeps the invariant -----------------------------------------------------------

  lemma PollBeginsKeeps(hash: string -> MessageId, s: State, latest: nat, events: seq<Raw>)
    requires Inv(hash, s) && s.poll.Waiting? && latest > s.lastPolled
    ensures Inv(hash, PollNext(hash, s, PollBegins(latest, Ok(events))).value)
  {
    var n := PollNext(hash, s, PollBegins(latest, Ok(events))).value;
    assert n.trace.windows[..|s.trace.windows|] == s.trace.windows;
    forall t | TaskOk(s, t) ensures TaskOk(n, t) { }
    forall x | x in n.trace.displaced ensures SharesTransaction(n, x) { assert SharesTransaction(s, x); }
    forall e | e in n.trace.fetched ensures Accounted(n, e) {
      if e in s.trace.fetched { AccountedMoves(s, n, e); }
      else { assert Parsed(e) in n.poll.todo; }
    }
  }

  // An event that only the loops' own positions could have lost.
  lemma AccountedMoves(s: State, n: State, e: Event)
    requires Accounted(s, e) && s.queue == n.queue && s.trace.appends == n.trace.appends &&
             s.trace.evictions == n.trace.evictions
    requires s.trace.dropped == n.trace.dropped && s.trace.displaced == n.trace.displaced
    requires InFlight(s, e) ==> InFlight(n, e)
    ensures Accounted(n, e)
  {
    if Queued(s, e) { assert Queued(n, e); }
    if Cached(s, e) { assert Cached(n, e); }
    if Evicted(s, e) { assert Evicted(n, e); }
  }

  // After a shared access that keeps every queued event accounted for, the loop
  // moves past event x, which is accounted for elsewhere.
  lemma AccountedAfter(s: State, m: State, n: State, x: Event)
    requires forall e | e in s.trace.fetched :: Accounted(s, e)
    requires forall e :: Keeps(s, m, e)
    requires n == m.(poll := n.poll, retry := n.retry) && m.trace.fetched == s.trace.fetched
    requires m.poll == s.poll && (m.retry == s.retry || n.retry.Draining?)
    requires Cached(m, x) || Queued(m, x) || x in m.trace.dropped
    requires forall e | InFlight(s, e) && e != x :: InFlight(n, e)
    requires forall e | InFlight(m, e) :: InFlight(s, e)
    ensures forall e | e in n.trace.fetched :: Accounted(n, e)
  {
    forall e | e in n.trace.fetched ensures Accounted(n, e) {
      assert Keeps(s, m, e);
      if e == x {
        AccountedStays(m, n, e);
      } else if InFlight(s, e) {
      } else {
        assert Accounted(m, e);
        if InFlight(m, e) { } else { AccountedMoves(m, n, e); }
      }
    }
  }

  lemma AccountedStays(m: State, n: State, e: Event)
    requires n == m.(poll := n.poll, retry := n.retry)
    requires Cached(m, e) || Queued(m, e) || e in m.trace.dropped
    ensures Accounted(n, e)
  {
    if Queued(m, e) { assert Queued(n, e); }
    if Cached(m, e) { assert Cached(n, e); }
  }

  // Moving a loop's position touches neither the queue nor the losses.
  lemma MovesKeep(s: State, n: State)
    requires QueueOk(s) && LossesOk(s) && n.queue == s.queue && n.trace == s.trace
    ensures QueueOk(n) && LossesOk(n) && forall t :: TaskOk(s, t) ==> TaskOk(n, t)
  {
    forall t | TaskOk(s, t) ensures TaskOk(n, t) { }
    forall x | x in n.trace.displaced ensures SharesTransaction(n, x) { assert SharesTransaction(s, x); }
  }

  lemma PollHandlesKeeps(hash: string -> MessageId, s: State, fetched: Option<Attempt>)
    requires Inv(hash, s) && s.poll.Window? && s.poll.todo != [] && s.poll.got.None?
    ensures Inv(hash, PollNext(hash, s, PollHandles(fetched)).value)
  {
    hide CacheOk, WindowsOk, Accounted, Add, Evicts, Displaces, Without, Keys, QueueOk, LossesOk, SharesTransaction;
    var n := PollNext(hash, s, PollHandles(fetched)).value;
    var todo := s.poll.todo;
    SameCache(hash, s, n);
    SameWindows(s, n);
    assert forall r | r in todo :: r == todo[0] || r in todo[1..];
    if todo[0].Malformed? || Checks(hash, todo[0].event, fetched) {
      MovesKeep(s, n);
      forall e | e in n.trace.fetched ensures Accounted(n, e) { AccountedMoves(s, n, e); }
    } else {
      var e := todo[0].event;
      assert e in EventsOf(todo);
      FailureKeeps(hash, s, n, Task(e, 0));
    }
  }

  // A failed processing that queues its event again.
  lemma FailureKeeps(hash: string -> MessageId, s: State, n: State, t: Task)
    requires QueueOk(s) && LossesOk(s) && TaskOk(Failed(s, t.event), t) &&
             forall e | e in s.trace.fetched :: Accounted(s, e)
    requires var m := Enqueue(Failed(s, t.event), t);
             n == m.(poll := n.poll, retry := n.retry) && (n.retry == s.retry || n.retry.Draining?)
    requires forall e | InFlight(s, e) && e != t.event :: InFlight(n, e)
    ensures QueueOk(n) && LossesOk(n) && forall e | e in n.trace.fetched :: Accounted(n, e)
    ensures forall u :: TaskOk(s, u) ==> TaskOk(n, u)
  {
    var f := Failed(s, t.event);
    var m := Enqueue(f, t);
    FailedKeeps(s, t.event);
    EnqueueKeeps(f, t);
    KeepsTwice(s, f, m);
    hide Add, Evicts, Displaces;
    forall u | TaskOk(s, u) ensures TaskOk(n, u) { assert TaskOk(f, u); }
    SameQueue(m, n);
    AccountedAfter(s, m, n, t.event);
  }

  lemma SameQueue(m: State, n: State)
    requires QueueOk(m) && LossesOk(m) && n == m.(poll := n.poll, retry := n.retry)
    ensures QueueOk(n) && LossesOk(n)
  {
    forall t | t in n.queue ensures TaskOk(n, t) { assert TaskOk(m, t); }
    forall x | x in n.trace.displaced ensures SharesTransaction(n, x) { assert SharesTransaction(m, x); }
  }

  lemma KeepsTwice(s: State, f: State, m: State)
    requires (forall e :: Keeps(s, f, e)) && (forall e :: Keeps(f, m, e))
    requires f == s.(trace := f.trace) && f.trace == s.trace.(failures := f.trace.failures) && m.poll == s.poll &&
             m.retry == s.retry
    ensures forall e :: Keeps(s, m, e)
  {
    forall e ensures Keeps(s, m, e) {
      assert Keeps(s, f, e) && Keeps(f, m, e);
      if Queued(s, e) { assert Queued(f, e); }
    }
  }

  lemma PollCachesKeeps(hash: string -> MessageId, s: State)
    requires Inv(hash, s) && PollNext(hash, s, PollCaches).Some?
    ensures Inv(hash, PollNext(hash, s, PollCaches).value)
  {
    hide CacheOk, WindowsOk, Accounted, Add, Evicts, Displaces, Without, Keys, QueueOk, LossesOk, Cached, Queued, Keeps,
         SharesTransaction;
    var n := PollNext(hash, s, PollCaches).value;
    var todo := s.poll.todo;
    var e, a := todo[0].event, s.poll.got.value;
    assert forall r | r in todo :: r == todo[0] || r in todo[1..];
    assert e in EventsOf(todo);
    AppendKeeps(s, e, a);
    AppendCaches(hash, s, e, a);
    var m := Append(s, e, a);
    SameCache(hash, m, n);
    SameWindows(s, n);
    SameQueue(m, n);
    AccountedAfter(s, m, n, e);
  }

  lemma PollEndsKeeps(hash: string -> MessageId, s: State)
    requires Inv(hash, s) && PollNext(hash, s, PollEnds).Some?
    ensures Inv(hash, PollNext(hash, s, PollEnds).value)
  {
    hide CacheOk, Accounted, Add, Evicts, Displaces, Without, Keys, QueueOk, LossesOk, SharesTransaction;
    var n := PollNext(hash, s, PollEnds).value;
    SameCache(hash, s, n);
    MovesKeep(s, n);
    forall e | e in n.trace.fetched ensures Accounted(n, e) { AccountedMoves(s, n, e); }
  }

  lemma RetryMovesKeeps(hash: string -> MessageId, s: State, a: Action)
    requires Inv(hash, s) && RetryNext(hash, s, a).Some? && (a.RetryBegins? || a.RetryPeeks?)
    ensures Inv(hash, RetryNext(hash, s, a).value)
  {
    hide CacheOk, WindowsOk, Accounted, Add, Evicts, Displaces, Without, Keys, QueueOk, LossesOk, SharesTransaction;
    var n := RetryNext(hash, s, a).value;
    SameCache(hash, s, n);
    SameWindows(s, n);
    MovesKeep(s, n);
    forall e | e in n.trace.fetched ensures Accounted(n, e) { AccountedMoves(s, n, e); }
  }

  lemma RetryRemovesKeeps(hash: string -> MessageId, s: State)
    requires Inv(hash, s) && RetryNext(hash, s, RetryRemoves).Some?
    ensures Inv(hash, RetryNext(hash, s, RetryRemoves).value)
  {
    var n := RetryNext(hash, s, RetryRemoves).value;
    RemoveKeeps(s, n);
    assert TaskOk(n, s.retry.task.value);
    forall e | e in n.trace.fetched ensures Accounted(n, e) {
      assert Keeps(s, n, e) && Accounted(s, e);
    }
  }

  lemma RetryHandlesKeeps(hash: string -> MessageId, s: State, fetched: Option<Attempt>)
    requires Inv(hash, s) && RetryNext(hash, s, RetryHandles(fetched)).Some?
    ensures Inv(hash, RetryNext(hash, s, RetryHandles(fetched)).value)
  {
    hide CacheOk, WindowsOk, Accounted, Add, Evicts, Displaces, Without, Keys, QueueOk, LossesOk, SharesTransaction;
    var n := RetryNext(hash, s, RetryHandles(fetched)).value;
    var e, retries := s.retry.task.value.event, s.retry.task.value.retries + 1;
    SameCache(hash, s, n);
    SameWindows(s, n);
    if Checks(hash, e, fetched) {
      MovesKeep(s, n);
      forall e | e in n.trace.fetched ensures Accounted(n, e) { AccountedMoves(s, n, e); }
    } else if retries < MAX_EVENT_PROCESS_RETRIES {
      FailureKeeps(hash, s, n, Task(e, retries));
    } else {
      LastFailureKeeps(s, n);
    }
  }

  lemma LastFailureKeeps(s: State, n: State)
    requires QueueOk(s) && LossesOk(s) && forall e | e in s.trace.fetched :: Accounted(s, e)
    requires s.retry.Draining? && s.retry.task.Some? && s.retry.task.value.retries + 1 >= MAX_EVENT_PROCESS_RETRIES
    requires TaskOk(s, s.retry.task.value)
    requires var e, f := s.retry.task.value.event, Failed(s, s.retry.task.value.event);
             n == f.(retry := Draining(s.retry.keys, None, false, None),
                     trace := f.trace.(dropped := f.trace.dropped + {e}))
    ensures QueueOk(n) && LossesOk(n) && forall e | e in n.trace.fetched :: Accounted(n, e)
  {
    var e := s.retry.task.value.event;
    var f := Failed(s, e);
    FailedKeeps(s, e);
    var m := f.(trace := f.trace.(dropped := f.trace.dropped + {e}));
    forall t | t in m.queue ensures TaskOk(m, t) { assert TaskOk(f, t); }
    forall x | x in m.trace.displaced ensures SharesTransaction(m, x) { assert SharesTransaction(f, x); }
    forall o ensures Keeps(s, m, o) {
      assert Keeps(s, f, o);
      if Queued(s, o) { var u :| u in s.queue && u.event == o; assert u in m.queue; }
    }
    SameQueue(m, n);
    AccountedAfter(s, m, n, e);
  }

  lemma RetryCachesKeeps(hash: string -> MessageId, s: State)
    requires Inv(hash, s) && RetryNext(hash, s, RetryCaches).Some?
    ensures Inv(hash, RetryNext(hash, s, RetryCaches).value)
  {
    hide CacheOk, WindowsOk, Accounted, Add, Evicts, Displaces, Without, Keys, QueueOk, LossesOk, Cached, Queued, Keeps,
         SharesTransaction;
    var n := RetryNext(hash, s, RetryCaches).value;
    var e, a := s.retry.task.value.event, s.retry.got.value;
    AppendKeeps(s, e, a);
    AppendCaches(hash, s, e, a);
    var m := Append(s, e, a);
    SameCache(hash, m, n);
    SameWindows(s, n);
    SameQueue(m, n);
    AccountedAfter(s, m, n, e);
  }

  lemma StartStays(hash: string -> MessageId, s: State, a: Action)
    requires Next(hash, s, a).Some?
    ensures Next(hash, s, a).value.startLedger == s.startLedger
  {
    hide Add, Checks, Without, Displaces, Evicts;
  }

  lemma NextKeeps(hash: string -> MessageId, s: State, a: Action)
    requires Inv(hash, s) && Next(hash, s, a).Some?
    ensures Inv(hash, Next(hash, s, a).value)
    ensures Next(hash, s, a).value.startLedger == s.startLedger
  {
    hide Inv, Enqueue, Failed, Append, Checks, Without, Displaces;
    StartStays(hash, s, a);
    match a
    case PollBegins(latest, events) =>
      if latest > s.lastPolled && events.Ok? { PollBeginsKeeps(hash, s, latest, events.value); }
    case PollHandles(fetched) => PollHandlesKeeps(hash, s, fetched);
    case PollCaches => PollCachesKeeps(hash, s);
    case PollEnds => PollEndsKeeps(hash, s);
    case RetryBegins => RetryMovesKeeps(hash, s, a);
    case RetryPeeks => RetryMovesKeeps(hash, s, a);
    case RetryRemoves => RetryRemovesKeeps(hash, s);
    case RetryHandles(fetched) => RetryHandlesKeeps(hash, s, fetched);
    case RetryCaches => RetryCachesKeeps(hash, s);
  }

  lemma {:induction false} RunKeeps(hash: string -> MessageId, s: State, actions: seq<Action>)
    requires Inv(hash, s) && Run(hash, s, actions).Some?
    ensures Inv(hash, Run(hash, s, actions).value)
    ensures Run(hash, s, actions).value.startLedger == s.startLedger
    decreases |actions|
  {
    if actions != [] {
      NextKeeps(hash, s, actions[0]);
      RunKeeps(hash, Next(hash, s, actions[0]).value, actions[1..]);
    }
  }

  lemma InitialOk(hash: string -> MessageId, startLedger: nat)
    ensures Inv(hash, Initial(startLedger))
  {
  }

  // ---- the properties of every reachable state ---------------------------------------------------

  // Each fetched event is cached, being processed, waiting with fewer than three
  // retries, was the oldest of a full queue, failed its first processing and all
  // three retries, or was pushed out by another event of its transaction.
  lemma EveryEventAccounted(hash: string -> MessageId, startLedger: nat, actions: seq<Action>, e: Event)
    requires var end := Run(hash, Initial(startLedger), actions);
             end.Some? && e in end.value.trace.fetched
    ensures var s := Run(hash, Initial(startLedger), actions).value;
            || Cached(s, e) || InFlight(s, e)
            || (exists t :: t in s.queue && t.event == e && t.retries < MAX_EVENT_PROCESS_RETRIES)
            || (exists q: seq<Task> :: q in s.trace.evictions && |q| == RETRY_QUEUE_LIMIT && q[0].event == e)
            || (e in s.trace.dropped && s.trace.failures[e] >= 1 + MAX_EVENT_PROCESS_RETRIES)
            || (e in s.trace.displaced && SharesTransaction(s, e))
  {
    InitialOk(hash, startLedger);
    RunKeeps(hash, Initial(startLedger), actions);
    var s := Run(hash, Initial(startLedger), actions).value;
    assert Accounted(s, e);
    if Queued(s, e) {
      var t :| t in s.queue && t.event == e;
      assert TaskOk(s, t);
    } else if Evicted(s, e) {
      var q: seq<Task> :| q in s.trace.evictions && q != [] && q[0].event == e;
      assert |q| == RETRY_QUEUE_LIMIT;
    }
  }

  lemma {:induction false} ChainCovers(windows: seq<(nat, nat)>, start: nat, end: nat, ledger: nat)
    requires Chained(windows, start, end)
    ensures start <= end && (forall w | w in windows :: start <= w.0 < w.1 <= end)
    ensures start <= ledger <= end && windows != [] ==> exists w :: w in windows && w.0 <= ledger <= w.1
  {
    if windows != [] {
      var init, last := windows[..|windows| - 1], windows[|windows| - 1];
      assert forall w :: w in windows <==> w in init || w == last;
      ChainCovers(init, start, last.0, ledger);
      if init != [] && start <= ledger <= last.0 {
        var w :| w in init && w.0 <= ledger <= w.1;
        assert w in windows;
      }
    }
  }

  // The fetched windows cover every ledger from the start to the last polled.
  lemma WindowsCover(hash: string -> MessageId, startLedger: nat, actions: seq<Action>, ledger: nat)
    requires Run(hash, Initial(startLedger), actions).Some?
    ensures var s := Run(hash, Initial(startLedger), actions).value;
            && startLedger <= s.lastPolled
            && (startLedger <= ledger <= s.lastPolled && startLedger < s.lastPolled ==>
                  exists w :: w in s.trace.windows && w.0 <= ledger <= w.1)
            && (forall w | w in s.trace.windows ::
                  startLedger <= w.0 < w.1 && (s.poll.Waiting? ==> w.1 <= s.lastPolled))
  {
    InitialOk(hash, startLedger);
    RunKeeps(hash, Initial(startLedger), actions);
    var s := Run(hash, Initial(startLedger), actions).value;
    ChainCovers(s.trace.windows, startLedger, if s.poll.Window? then s.poll.to else s.lastPolled, ledger);
    if s.poll.Window? {
      var init := s.trace.windows[..|s.trace.windows| - 1];
      ChainCovers(init, startLedger, s.lastPolled, ledger);
      assert forall w | w in init :: w in s.trace.windows;
    }
  }

  // No append is lost whatever the interleaving, and each attempt stored under a
  // message ID re-hashes to it.
  lemma CacheHoldsEveryAppend(hash: string -> MessageId, startLedger: nat, actions: seq<Action>, id: MessageId)
    requires Run(hash, Initial(startLedger), actions).Some?
    ensures var s := Run(hash, Initial(startLedger), actions).value;
            var held := if id in s.cache then s.cache[id] else [];
            && held == Group(s.trace.appends, id)
            && (forall a | a in held :: hash(a.message) == id)
            && (forall p | p in s.trace.appends && p.0.messageId == id :: p.1 in held)
  {
    InitialOk(hash, startLedger);
    RunKeeps(hash, Initial(startLedger), actions);
    var s := Run(hash, Initial(startLedger), actions).value;
    GroupMembers(s.trace.appends, id);
  }

  lemma {:induction false} GroupMembers(appends: seq<(Event, Attempt)>, id: MessageId)
    ensures forall a :: a in Group(appends, id) <==> exists p :: p in appends && p.0.messageId == id && p.1 == a
  {
    if appends != [] {
      var init, last := appends[..|appends| - 1], appends[|appends| - 1];
      assert forall p :: p in appends <==> p in init || p == last;
      GroupMembers(init, id);
      forall a ensures a in Group(appends, id) <==> exists p :: p in appends && p.0.messageId == id && p.1 == a {
        if a in Group(init, id) { var p :| p in init && p.0.messageId == id && p.1 == a; assert p in appends; }
        else if last.0.messageId == id && last.1 == a { assert last in appends; }
      }
    }
  }
}
