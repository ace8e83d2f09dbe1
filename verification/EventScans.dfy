/**
 The two event scans: GetEventsInRange (ccv/destination_reader/events.go) and
 fetchAllEvents (ccv/source_reader/source_reader.go).  Their results are tied
 to the server's rules; neither ever returns a partial list.
 */
module EventScans {
  import opened Wrappers
  import opened EventPages

  // The requests of one scan: the window, then a continuation from the cursor of
  // each page before.
  predicate Asking(server: Server, from: nat, to: nat, limit: Option<nat>, asked: seq<Request>)
  {
    (asked != [] ==> asked[0] == Window(from, to, limit)) &&
      forall k | 0 < k < |asked| :: Continues(server, limit, asked, k)
  }

  predicate Continues(server: Server, limit: Option<nat>, asked: seq<Request>, k: nat)
    requires 0 < k < |asked|
  {
    var answer := server(k - 1, asked[k - 1]);
    answer.Ok? && answer.value.cursor.At? && asked[k] == Continue(answer.value.cursor.pos, limit)
  }

  lemma AskNext(server: Server, from: nat, to: nat, limit: Option<nat>, asked: seq<Request>, q: Request)
    requires Asking(server, from, to, limit, asked)
    requires if asked == [] then q == Window(from, to, limit) else Continues(server, limit, asked + [q], |asked|)
    ensures Asking(server, from, to, limit, asked + [q])
  {
    forall k | 0 < k <= |asked| ensures Continues(server, limit, asked + [q], k) {
      if k < |asked| { assert Continues(server, limit, asked, k); }
    }
  }

  // The scan's last request failed.
  predicate Refused(server: Server, asked: seq<Request>)
  {
    asked != [] && server(|asked| - 1, asked[|asked| - 1]).Err?
  }

  // The answer to the k-th request.
  function AnswerAt(server: Server, asked: seq<Request>, k: nat): Result<Response, string>
    requires k < |asked|
  {
    server(k, asked[k])
  }

  predicate PassesWindow(page: seq<Event>, to: nat) { exists e :: e in page && e.ledger > to }

  lemma PassesIff(page: seq<Event>, to: nat)
    ensures PassesWindow(page, to) <==> |Taken(page, to)| < |page|
  {
    TakenMeaning(page, to);
    var n := |Taken(page, to)|;
    if n < |page| { assert page[n] in page; }
    else { assert forall e | e in page :: e.ledger <= to; }
  }

  // A scan between two requests: the cursor of its last answer, none before the first.
  ghost predicate Underway(server: Server, from: nat, to: nat, limit: Option<nat>, asked: seq<Request>,
                           cursor: Option<Cursor>)
  {
    && Asking(server, from, to, limit, asked) && (cursor.None? <==> asked == [])
    && (cursor.Some? ==>
          AnswerAt(server, asked, |asked| - 1).Ok? &&
            AnswerAt(server, asked, |asked| - 1).value.cursor == At(cursor.value))
  }

  lemma StillAsking(server: Server, from: nat, to: nat, limit: Option<nat>, asked: seq<Request>, cursor: Option<Cursor>)
    requires Underway(server, from, to, limit, asked, cursor)
    ensures Asking(server, from, to, limit, asked)
  {
  }

  lemma AskOnce(server: Server, from: nat, to: nat, limit: Option<nat>, asked: seq<Request>, cursor: Option<Cursor>)
    requires Underway(server, from, to, limit, asked, cursor)
    ensures var q := if cursor.None? then Window(from, to, limit) else Continue(cursor.value, limit);
            var now, answer := asked + [q], server(|asked|, q);
            && Asking(server, from, to, limit, now) && (answer.Err? <==> Refused(server, now))
            && (answer.Ok? && answer.value.cursor.At? ==>
                  Underway(server, from, to, limit, now, Some(answer.value.cursor.pos)))
  {
    var q := if cursor.None? then Window(from, to, limit) else Continue(cursor.value, limit);
    AskNext(server, from, to, limit, asked, q);
  }

  // All that the answers hold up to the window's end, each event once or as often
  // as it is served.
  function Gathered(server: Server, asked: seq<Request>, to: nat, once: bool): seq<Event>
  {
    if asked == [] || AnswerAt(server, asked, |asked| - 1).Err? then []
    else
      var was := Gathered(server, asked[..|asked| - 1], to, once);
      var taken := Taken(AnswerAt(server, asked, |asked| - 1).value.events, to);
      was + if once then Fresh(Ids(was), taken) else taken
  }

  lemma GatherNext(server: Server, asked: seq<Request>, q: Request, to: nat, once: bool)
    requires server(|asked|, q).Ok?
    ensures var was, taken := Gathered(server, asked, to, once), Taken(server(|asked|, q).value.events, to);
            Gathered(server, asked + [q], to, once) == was + if once then Fresh(Ids(was), taken) else taken
  {
    assert (asked + [q])[..|asked|] == asked;
  }

  // Nothing more is expected: the last answer passed the window, was not full, or
  // carried no cursor.
  predicate PagesDone(server: Server, asked: seq<Request>, to: nat)
  {
    asked != [] &&
    match AnswerAt(server, asked, |asked| - 1)
    case Err(_) => false
    case Ok(last) => PassesWindow(last.events, to) || |last.events| < EVENTS_PAGE_LIMIT || last.cursor == NoCursor
  }

  // More was expected, but the cursor does not parse or does not advance.
  predicate PagesStuck(server: Server, asked: seq<Request>, to: nat)
  {
    asked != [] && !PagesDone(server, asked, to) &&
    match AnswerAt(server, asked, |asked| - 1)
    case Err(_) => false
    case Ok(last) =>
      || last.cursor.Unparsable?
      || (last.cursor.At? && |asked| > 1 && asked[|asked| - 1].Continue? &&
          last.cursor.pos <= asked[|asked| - 1].cursor)
  }

  lemma NothingAsked(server: Server, from: nat, to: nat, limit: Option<nat>, once: bool)
    ensures Gathered(server, [], to, once) == [] && Underway(server, from, to, limit, [], None)
  {
  }

  // One more answer to GetEventsInRange.
  lemma PageVerdict(server: Server, asked: seq<Request>, q: Request, to: nat)
    ensures server(|asked|, q).Ok? ==>
              var last, now := server(|asked|, q).value, asked + [q];
              var was, taken := Gathered(server, asked, to, true), Taken(last.events, to);
              var done := |taken| < |last.events| || |last.events| < EVENTS_PAGE_LIMIT || last.cursor == NoCursor;
              && Gathered(server, now, to, true) == was + Fresh(Ids(was), taken)
              && (PagesDone(server, now, to) <==> done)
              && (last.cursor.Unparsable? && !done ==> PagesStuck(server, now, to))
              && (last.cursor.At? && asked != [] && q.Continue? && last.cursor.pos <= q.cursor && !done ==>
                    PagesStuck(server, now, to))
  {
    if server(|asked|, q).Ok? {
      GatherNext(server, asked, q, to, true);
      PassesIff(server(|asked|, q).value.events, to);
      hide Gathered, Taken, Fresh, PassesWindow;
    }
  }

  lemma RangeOnce(h: seq<Event>, from: nat, to: nat)
    requires History(h)
    ensures OnceEach(InRange(h, from, to))
    ensures forall k | 0 <= k < |InRange(h, from, to)| :: InRange(h, from, to)[k].id < FirstOf(to + 1)
  {
    var w, a := InRange(h, from, to), Lo(h, from);
    assert forall k | 0 <= k < |w| :: w[k] == h[a + k];
  }

  // ---- GetEventsInRange ------------------------------------------------------------------

  // What a scan collects: everything wanted, unless the server's window leaves
  // out its end ledger and the first page is not full.
  ghost function Collected(wanted: seq<Event>, to: nat, rules: Rules): seq<Event>
  {
    if Asked(wanted, to, rules) >= EVENTS_PAGE_LIMIT then wanted else wanted[..Asked(wanted, to, rules)]
  }

  ghost predicate Midway(wanted: seq<Event>, from: nat, to: nat, rules: Rules, out: seq<Event>, cursor: Cursor)
  {
    && |out| <= |wanted| && out == wanted[..|out|] && Scanned(wanted, |out|, cursor)
    && FirstOf(from) <= cursor && Collected(wanted, to, rules) == wanted
  }

  lemma FirstStep(h: seq<Event>, from: nat, to: nat, rules: Rules, resp: Response)
    requires History(h) && Served(h, Window(from, to, Some(EVENTS_PAGE_LIMIT)), rules, resp)
    ensures var out, wanted := Fresh({}, Taken(resp.events, to)), InRange(h, from, to);
            && |Taken(resp.events, to)| == |resp.events|
            && (|resp.events| < EVENTS_PAGE_LIMIT ==> out == Collected(wanted, to, rules))
            && (|resp.events| >= EVENTS_PAGE_LIMIT ==>
                  resp.cursor.At? && Midway(wanted, from, to, rules, out, resp.cursor.pos))
  {
    hide Below, Taken, History, InRange, Scanned, Served, Fresh;
    var wanted, n := InRange(h, from, to), |resp.events|;
    FirstPage(h, from, to, Some(EVENTS_PAGE_LIMIT), rules, resp);
    RangeOnce(h, from, to);
    FreshOverlap(wanted, 0, 0, n);
    assert wanted[0..n] == wanted[..n] && wanted[..0] == [] && Ids([]) == {};
  }

  lemma NextStep(h: seq<Event>, from: nat, to: nat, rules: Rules, resp: Response, out: seq<Event>, cursor: Cursor)
    requires History(h) && Midway(InRange(h, from, to), from, to, rules, out, cursor)
    requires Served(h, Continue(cursor, Some(EVENTS_PAGE_LIMIT)), rules, resp)
    ensures var out', wanted := out + Fresh(Ids(out), Taken(resp.events, to)), InRange(h, from, to);
            if |Taken(resp.events, to)| < |resp.events| || |resp.events| < EVENTS_PAGE_LIMIT then out' == wanted
            else resp.cursor.At? && cursor < resp.cursor.pos && Midway(wanted, from, to, rules, out', resp.cursor.pos)
  {
    hide Below, Taken, History, InRange, Scanned, Served, Fresh, Collected;
    var wanted, m := InRange(h, from, to), |out|;
    TakenMeaning(resp.events, to);
    var x, y := NextPage(h, from, to, cursor, Some(EVENTS_PAGE_LIMIT), rules, resp, m);
    RangeOnce(h, from, to);
    FreshOverlap(wanted, m, x, y);
    assert wanted[..|wanted|] == wanted;
    if |Taken(resp.events, to)| == |resp.events| >= EVENTS_PAGE_LIMIT {
      NextCursor(h, from, to, cursor, Some(EVENTS_PAGE_LIMIT), rules, resp, m);
    }
  }

  function PageRequest(from: nat, to: nat, cursor: Option<Cursor>): Request
  {
    if cursor.None? then Window(from, to, Some(EVENTS_PAGE_LIMIT)) else Continue(cursor.value, Some(EVENTS_PAGE_LIMIT))
  }

  lemma OneStep(server: Server, hist: nat -> seq<Event>, rules: Rules, from: nat, to: nat, wanted: seq<Event>,
                call: nat, cursor: Option<Cursor>, resp: Response, was: seq<Event>, out: seq<Event>)
    requires Honest(server, hist, rules, from, to, wanted) && server(call, PageRequest(from, to, cursor)) == Ok(resp)
    requires if cursor.None? then was == [] else Midway(wanted, from, to, rules, was, cursor.value)
    requires out == was + Fresh(Ids(was), Taken(resp.events, to))
    ensures if |Taken(resp.events, to)| < |resp.events| ||
            |resp.events| < EVENTS_PAGE_LIMIT then out == Collected(wanted, to, rules)
            else && resp.cursor.At? && (cursor.Some? ==> cursor.value < resp.cursor.pos)
                 && Midway(wanted, from, to, rules, out, resp.cursor.pos)
  {
    hide Taken, Fresh, History, InRange, Served;
    var h := hist(call);
    var q := PageRequest(from, to, cursor);
    assert History(h) && InRange(h, from, to) == wanted && Served(h, q, rules, resp);
    if cursor.None? {
      FirstStep(h, from, to, rules, resp);
      assert Ids(was) == {};
    } else {
      NextStep(h, from, to, rules, resp, was, cursor.value);
    }
  }

  // Terminates against any server.  `hist`, `rules` and `wanted` only say what
  // an honest server serves.
  method GetEventsInRange(server: Server, from: nat, to: nat, ghost hist: nat -> seq<Event>, ghost rules: Rules,
                          ghost wanted: seq<Event>)
    returns (r: Result<seq<Event>, string>, ghost asked: seq<Request>)
    ensures Asking(server, from, to, Some(EVENTS_PAGE_LIMIT), asked)
    ensures r.Ok? ==> OnceEach(r.value) && forall e | e in r.value :: e.ledger <= to
    ensures r.Ok? ==> PagesDone(server, asked, to) && r.value == Gathered(server, asked, to, true)
    ensures r.Err? ==> Refused(server, asked) || PagesStuck(server, asked, to)
    ensures Honest(server, hist, rules, from, to, wanted) && r.Ok? ==> r.value == Collected(wanted, to, rules)
    ensures Honest(server, hist, rules, from, to, wanted) && r.Err? ==> Refused(server, asked)
  {
    asked := [];
    var seen: set<Cursor>, out: seq<Event>, cursor: Option<Cursor>, calls := {}, [], None, 0;
    ghost var honest := Honest(server, hist, rules, from, to, wanted);
    hide Honest, Taken, Fresh, Midway, Collected, Gathered, Asking, PagesDone, PagesStuck, Underway, Refused;
    NothingAsked(server, from, to, Some(EVENTS_PAGE_LIMIT), true);
    while true
      invariant out == Gathered(server, asked, to, true)
      invariant seen == Ids(out) && OnceEach(out) && forall e | e in out :: e.ledger <= to
      invariant cursor.None? ==> out == []
      invariant honest && cursor.Some? ==> Midway(wanted, from, to, rules, out, cursor.value)
      invariant Underway(server, from, to, Some(EVENTS_PAGE_LIMIT), asked, cursor) && |asked| == calls
      invariant cursor.Some? ==> asked != []
      decreases if cursor.None? then CURSORS + 1 else CURSORS - cursor.value
    {
      AskOnce(server, from, to, Some(EVENTS_PAGE_LIMIT), asked, cursor);
      PageVerdict(server, asked, PageRequest(from, to, cursor), to);
      asked := asked + [PageRequest(from, to, cursor)];
      var resp := server(calls, PageRequest(from, to, cursor));
      if resp.Err? { return Err("failed to get events"), asked; }
      ghost var was := out;
      var pastWindow;
      seen, out, pastWindow := CollectPage(resp.value.events, to, seen, out);
      if honest { OneStep(server, hist, rules, from, to, wanted, calls, cursor, resp.value, was, out); }
      calls := calls + 1;
      if pastWindow || |resp.value.events| < EVENTS_PAGE_LIMIT || resp.value.cursor == NoCursor { break; }
      if resp.value.cursor.Unparsable? { return Err("failed to parse events cursor"), asked; }
      var next := resp.value.cursor.pos;
      if cursor.Some? && next <= cursor.value { return Err("events cursor did not advance"), asked; }
      cursor := Some(next);
    }
    return Ok(out), asked;
  }

  // ---- fetchAllEvents ----------------------------------------------------------------------

  // What it collects: everything wanted, unless the server's window leaves out
  // its end ledger and holds no other event.
  ghost function Fetched(wanted: seq<Event>, to: nat, rules: Rules): seq<Event>
  {
    if Asked(wanted, to, rules) > 0 then wanted else []
  }

  ghost predicate Fetching(wanted: seq<Event>, from: nat, to: nat, rules: Rules, events: seq<Event>, cursor: Cursor)
  {
    && |events| <= |wanted| && events == wanted[..|events|] && Scanned(wanted, |events|, cursor)
    && FirstOf(from) <= cursor && Fetched(wanted, to, rules) == wanted
  }

  function FetchRequest(from: nat, to: nat, cursor: Option<Cursor>): Request
  {
    if cursor.None? then Window(from, to, None) else Continue(cursor.value, None)
  }

  lemma FirstFetch(h: seq<Event>, from: nat, to: nat, rules: Rules, resp: Response)
    requires History(h) && Served(h, Window(from, to, None), rules, resp)
    ensures var taken, wanted := Taken(resp.events, to), InRange(h, from, to);
            && |taken| == |resp.events|
            && (|resp.events| == 0 ==> taken == Fetched(wanted, to, rules))
            && (|resp.events| > 0 ==> resp.cursor.At? && Fetching(wanted, from, to, rules, taken, resp.cursor.pos))
  {
    hide Below, Taken, History, InRange, Scanned, Served;
    FirstPage(h, from, to, None, rules, resp);
  }

  lemma NextFetch(h: seq<Event>, from: nat, to: nat, rules: Rules, resp: Response, events: seq<Event>, cursor: Cursor)
    requires !rules.cursorInclusive && History(h) && Fetching(InRange(h, from, to), from, to, rules, events, cursor)
    requires Served(h, Continue(cursor, None), rules, resp)
    ensures var now, wanted := events + Taken(resp.events, to), InRange(h, from, to);
            if |Taken(resp.events, to)| < |resp.events| ||
              |resp.events| == 0 then now == wanted == Fetched(wanted, to, rules)
            else resp.cursor.At? && cursor < resp.cursor.pos && Fetching(wanted, from, to, rules, now, resp.cursor.pos)
  {
    hide Below, Taken, History, InRange, Scanned, Served, Fetched;
    var wanted, m := InRange(h, from, to), |events|;
    TakenMeaning(resp.events, to);
    var x, y := NextPage(h, from, to, cursor, None, rules, resp, m);
    assert wanted[..m] + wanted[m..y] == wanted[..y] && wanted[..|wanted|] == wanted;
    if |Taken(resp.events, to)| == |resp.events| > 0 {
      NextCursor(h, from, to, cursor, None, rules, resp, m);
    }
  }

  lemma OneFetch(server: Server, hist: nat -> seq<Event>, rules: Rules, from: nat, to: nat, wanted: seq<Event>,
                 call: nat, cursor: Option<Cursor>, resp: Response, was: seq<Event>)
    requires Honest(server, hist, rules, from, to, wanted) && server(call, FetchRequest(from, to, cursor)) == Ok(resp)
    requires !rules.cursorInclusive &&
             if cursor.None? then was == [] else Fetching(wanted, from, to, rules, was, cursor.value)
    ensures var now := was + Taken(resp.events, to);
            if |Taken(resp.events, to)| < |resp.events| || |resp.events| == 0 then now == Fetched(wanted, to, rules)
            else && resp.cursor.At? && (cursor.Some? ==> cursor.value < resp.cursor.pos)
                 && Fetching(wanted, from, to, rules, now, resp.cursor.pos) && |was| < |now| <= |wanted|
                 && (FirstOf(to + 1) <= resp.cursor.pos ==> now == Fetched(wanted, to, rules))
  {
    hide Taken, History, InRange, Served, Fetched, Fetching;
    var h := hist(call);
    var q := FetchRequest(from, to, cursor);
    assert History(h) && InRange(h, from, to) == wanted && Served(h, q, rules, resp);
    TakenMeaning(resp.events, to);
    if cursor.None? {
      FirstFetch(h, from, to, rules, resp);
      assert was + Taken(resp.events, to) == Taken(resp.events, to);
    } else {
      NextFetch(h, from, to, rules, resp, was, cursor.value);
    }
    if |Taken(resp.events, to)| == |resp.events| > 0 {
      RangeOnce(h, from, to);
      PastEnd(wanted, from, to, rules, was + Taken(resp.events, to), resp.cursor.pos);
      assert |was + Taken(resp.events, to)| == |was| + |resp.events|;
    }
  }

  // A cursor in a later ledger leaves nothing of the range.
  lemma PastEnd(wanted: seq<Event>, from: nat, to: nat, rules: Rules, events: seq<Event>, cursor: Cursor)
    requires Fetching(wanted, from, to, rules, events, cursor)
    requires forall k | 0 <= k < |wanted| :: wanted[k].id < FirstOf(to + 1)
    ensures |events| <= |wanted| && (FirstOf(to + 1) <= cursor ==> events == Fetched(wanted, to, rules))
  {
    assert |events| < |wanted| ==> cursor < wanted[|events|].id;
    assert wanted[..|wanted|] == wanted;
  }

  // Nothing more is expected: the last answer passed the window, by an event or by
  // its cursor, was empty, or carried no cursor or the one it was asked with.
  predicate FetchDone(server: Server, asked: seq<Request>, to: nat)
  {
    asked != [] &&
    match AnswerAt(server, asked, |asked| - 1)
    case Err(_) => false
    case Ok(last) =>
      || PassesWindow(last.events, to) || last.events == [] || last.cursor == NoCursor
      || (last.cursor.At? && last.cursor.pos >= FirstOf(to + 1))
      || (last.cursor.At? && asked[|asked| - 1].Continue? && last.cursor.pos == asked[|asked| - 1].cursor)
  }

  predicate FetchStuck(server: Server, asked: seq<Request>, to: nat)
  {
    asked != [] && !FetchDone(server, asked, to) &&
    match AnswerAt(server, asked, |asked| - 1) case Err(_) => false case Ok(last) => last.cursor.Unparsable?
  }

  // One more answer to fetchAllEvents.
  lemma FetchVerdict(server: Server, asked: seq<Request>, q: Request, to: nat)
    ensures server(|asked|, q).Ok? ==>
              var last, now := server(|asked|, q).value, asked + [q];
              var taken := Taken(last.events, to);
              var done := || |taken| < |last.events| || last.events == [] || last.cursor == NoCursor
                          || (last.cursor.At? && last.cursor.pos >= FirstOf(to + 1))
                          || (last.cursor.At? && q.Continue? && last.cursor.pos == q.cursor);
              && Gathered(server, now, to, false) == Gathered(server, asked, to, false) + taken
              && (FetchDone(server, now, to) <==> done)
              && (FetchStuck(server, now, to) <==> !done && last.cursor.Unparsable?)
  {
    if server(|asked|, q).Ok? {
      GatherNext(server, asked, q, to, false);
      PassesIff(server(|asked|, q).value.events, to);
      hide Gathered, Taken, PassesWindow, FirstOf;
    }
  }

  // `deadline` is the number of requests the context lives for.
  method FetchAllEvents(server: Server, from: nat, to: nat, deadline: nat, ghost hist: nat -> seq<Event>,
                        ghost rules: Rules, ghost wanted: seq<Event>)
    returns (r: Result<seq<Event>, string>, ghost asked: seq<Request>)
    ensures Asking(server, from, to, None, asked) && |asked| <= deadline
    ensures r.Ok? ==> forall e | e in r.value :: e.ledger <= to
    ensures r.Ok? ==> FetchDone(server, asked, to) && r.value == Gathered(server, asked, to, false)
    ensures r.Err? ==> |asked| == deadline || Refused(server, asked) || FetchStuck(server, asked, to)
    ensures Honest(server, hist, rules, from, to, wanted) && !rules.cursorInclusive && r.Ok? ==>
              r.value == Fetched(wanted, to, rules)
    ensures Honest(server, hist, rules, from, to, wanted) && !rules.cursorInclusive && deadline > |wanted| && r.Err? ==>
              Refused(server, asked)
  {
    asked := [];
    var events: seq<Event>, prevCursor, cursor: Option<Cursor>, pages := [], NoCursor, None, 0;
    ghost var honest := Honest(server, hist, rules, from, to, wanted) && !rules.cursorInclusive;
    hide Honest, Taken, Fetching, Fetched, Gathered, FirstOf, Asking, FetchDone, FetchStuck, Underway, Refused;
    NothingAsked(server, from, to, None, false);
    while true
      invariant events == Gathered(server, asked, to, false)
      invariant pages <= deadline
      invariant forall e | e in events :: e.ledger <= to
      invariant if cursor.None? then events == [] && prevCursor == NoCursor else prevCursor == At(cursor.value)
      invariant honest && cursor.Some? ==>
                  Fetching(wanted, from, to, rules, events, cursor.value) && pages <= |events| <= |wanted|
      invariant Underway(server, from, to, None, asked, cursor) && |asked| == pages
      invariant cursor.None? <==> pages == 0
      decreases deadline - pages
    {
      if pages == deadline {
        assert Asking(server, from, to, None, asked) by { StillAsking(server, from, to, None, asked, cursor); }
        return Err("context done"), asked;
      }
      AskOnce(server, from, to, None, asked, cursor);
      FetchVerdict(server, asked, FetchRequest(from, to, cursor), to);
      asked := asked + [FetchRequest(from, to, cursor)];
      var resp := server(pages, FetchRequest(from, to, cursor));
      if resp.Err? { return Err("failed to get events"), asked; }
      if honest { OneFetch(server, hist, rules, from, to, wanted, pages, cursor, resp.value, events); }
      pages := pages + 1;
      var taken, outOfRange := TakePage(resp.value.events, to);
      events := events + taken;
      if outOfRange || resp.value.cursor == NoCursor || |resp.value.events| == 0 || resp.value.cursor == prevCursor {
        break;
      }
      if resp.value.cursor.Unparsable? { return Err("failed to parse events continuation cursor"), asked; }
      if resp.value.cursor.pos >= FirstOf(to + 1) { break; }
      prevCursor := resp.value.cursor;
      cursor := Some(resp.value.cursor.pos);
    }
    return Ok(events), asked;
  }

  method TakePage(page: seq<Event>, to: nat) returns (taken: seq<Event>, outOfRange: bool)
    ensures taken == Taken(page, to) && (outOfRange <==> |taken| < |page|)
    ensures forall e | e in taken :: e.ledger <= to
  {
    taken, outOfRange := [], false;
    for i := 0 to |page|
      invariant taken == page[..i] && Taken(page, to) == taken + Taken(page[i..], to)
      invariant forall e | e in taken :: e.ledger <= to
    {
      if page[i].ledger > to { return taken, true; }
      assert page[i..][1..] == page[i + 1..];
      taken := taken + [page[i]];
    }
  }

  // ---- the two scans against each other, and against the range -------------------------------

  // Each scan is exact iff the server's window includes its end ledger, or no
  // event is there, or enough events precede it to force a continuation.
  lemma ExactWhen(h: seq<Event>, from: nat, to: nat, rules: Rules)
    requires History(h)
    ensures var wanted := InRange(h, from, to);
            var atEnd := |wanted| - Asked(wanted, to, rules);
            && (Collected(wanted, to, rules) == wanted <==> atEnd == 0 || Asked(wanted, to, rules) >= EVENTS_PAGE_LIMIT)
            && (Fetched(wanted, to, rules) == wanted <==> atEnd == 0 || Asked(wanted, to, rules) > 0)
            && (atEnd == 0 <==> rules.endInclusive || forall e | e in wanted :: e.ledger != to)
  {
    var wanted := InRange(h, from, to);
    hide Below, Asked, InRange, FirstOf, History;
    AtEndLedger(h, from, to, rules);
    assert wanted[..|wanted|] == wanted;
  }

  lemma AtEndLedger(h: seq<Event>, from: nat, to: nat, rules: Rules)
    requires History(h)
    ensures var wanted := InRange(h, from, to);
            Asked(wanted, to, rules) == |wanted| <==> rules.endInclusive || forall e | e in wanted :: e.ledger != to
  {
    hide Below, FirstOf, Placed, Hi, Lo;
    var wanted := InRange(h, from, to);
    HistorySlice(h, Lo(h, from), Hi(h, from, to));
    RangeOnce(h, from, to);
    ByLedger(wanted, to);
    forall k | 0 <= k < |wanted| ensures wanted[k].ledger <= to {
      assert wanted[k] in wanted;
      LedgerOrder(wanted[k], to + 1);
    }
    var n := Below(wanted, FirstOf(to));
    if n < |wanted| { assert wanted[n] in wanted && wanted[n].ledger == to; }
  }

  // A single event in the end ledger of an end-exclusive server is missed by both.
  lemma EndLedgerMissed(e: Event, from: nat, cursorInclusive: bool)
    requires Placed(e) && from <= e.ledger
    ensures var rules := Rules(cursorInclusive, false);
            && History([e]) && InRange([e], from, e.ledger) == [e]
            && Collected([e], e.ledger, rules) == [] && Fetched([e], e.ledger, rules) == []
  {
    var h := [e];
    ByLedger(h, from);
    ByLedger(h, e.ledger);
    ByLedger(h, e.ledger + 1);
    assert h[0] == e;
    hide Below;
    assert InRange(h, from, e.ledger) == h[0..1];
  }

  // On an honest server with exclusive cursors whose window includes its end,
  // both scans return the range's events, unless a request of theirs fails.
  method SameEvents(server: Server, from: nat, to: nat, deadline: nat, ghost hist: nat -> seq<Event>,
                    ghost rules: Rules, ghost wanted: seq<Event>)
    returns (source: Result<seq<Event>, string>, destination: Result<seq<Event>, string>, ghost asked: seq<Request>,
             ghost askedToo: seq<Request>)
    requires Honest(server, hist, rules, from, to, wanted) && !rules.cursorInclusive
    requires rules.endInclusive || forall e | e in wanted :: e.ledger != to
    ensures source.Ok? && destination.Ok? ==> source.value == destination.value == wanted
    ensures Asking(server, from, to, None, asked) && Asking(server, from, to, Some(EVENTS_PAGE_LIMIT), askedToo)
    ensures source.Err? && deadline > |wanted| ==> Refused(server, asked)
    ensures destination.Err? ==> Refused(server, askedToo)
  {
    source, asked := FetchAllEvents(server, from, to, deadline, hist, rules, wanted);
    destination, askedToo := GetEventsInRange(server, from, to, hist, rules, wanted);
    ghost var q := Window(from, to, None);
    assert History(hist(0)) && InRange(hist(0), from, to) == wanted by { var s := server(0, q); }
    ExactWhen(hist(0), from, to, rules);
  }
}
