/**
 Event ingestion: paging through a contract's events with cursors.
 GetEventsInRange (ccv/destination_reader) and fetchAllEvents
 (ccv/source_reader) against a getEvents server whose rules are explicit.
 */
module EventPages {
  import opened Wrappers

  // A cursor orders (ledger, transaction, operation, event), 32 bits each.
  const CURSORS: nat := 0x1_0000_0000_0000_0000_0000_0000_0000_0000
  function FirstOf(ledger: nat): nat { ledger * 0x1_0000_0000_0000_0000_0000_0000 }
  const EVENTS_PAGE_LIMIT: nat := 100

  type Cursor = c: nat | c < CURSORS witness 0

  // An event's ID is its cursor.
  datatype Event = Event(id: Cursor, ledger: nat)

  datatype CursorText = NoCursor | Unparsable(text: string) | At(pos: Cursor)
  datatype Request = Window(from: nat, to: nat, limit: Option<nat>) | Continue(cursor: Cursor, limit: Option<nat>)
  datatype Response = Response(events: seq<Event>, cursor: CursorText)

  // What the n-th request of a scan is answered.
  type Server = (nat, Request) -> Result<Response, string>

  // ---- reading one page --------------------------------------------------------------

  // The events before the first one past the window.
  function Taken(events: seq<Event>, to: nat): seq<Event>
  {
    if events == [] || events[0].ledger > to then [] else [events[0]] + Taken(events[1..], to)
  }

  lemma {:induction false} TakenMeaning(events: seq<Event>, to: nat)
    ensures var t := Taken(events, to);
            && t <= events && (forall k | 0 <= k < |t| :: t[k].ledger <= to)
            && (|t| < |events| ==> events[|t|].ledger > to)
  {
    if events != [] && events[0].ledger <= to { TakenMeaning(events[1..], to); }
  }

  function Ids(events: seq<Event>): set<Cursor> { set e | e in events :: e.id }

  // Those not seen before, nor earlier on the page.
  function Fresh(seen: set<Cursor>, events: seq<Event>): seq<Event>
    decreases |events|
  {
    if events == [] then []
    else if events[0].id in seen then Fresh(seen, events[1..])
    else [events[0]] + Fresh(seen + {events[0].id}, events[1..])
  }

  predicate OnceEach(events: seq<Event>) { forall i, j | 0 <= i < j < |events| :: events[i].id != events[j].id }

  method CollectPage(page: seq<Event>, to: nat, seen0: set<Cursor>, out0: seq<Event>)
    returns (seen: set<Cursor>, out: seq<Event>, pastWindow: bool)
    requires seen0 == Ids(out0) && OnceEach(out0) && forall e | e in out0 :: e.ledger <= to
    ensures out == out0 + Fresh(seen0, Taken(page, to))
    ensures seen == Ids(out) && OnceEach(out) && forall e | e in out :: e.ledger <= to
    ensures pastWindow <==> |Taken(page, to)| < |page|
  {
    seen, out, pastWindow := seen0, out0, false;
    var i := 0;
    while i < |page|
      invariant 0 <= i <= |page|
      invariant out + Fresh(seen, Taken(page[i..], to)) == out0 + Fresh(seen0, Taken(page, to))
      invariant seen == Ids(out) && OnceEach(out) && forall e | e in out :: e.ledger <= to
      invariant |Taken(page, to)| == i + |Taken(page[i..], to)|
    {
      var e := page[i];
      if e.ledger > to {
        pastWindow := true;
        return;
      }
      assert Taken(page[i..], to) == [e] + Taken(page[i + 1..], to) by { assert page[i..][1..] == page[i + 1..]; }
      assert ([e] + Taken(page[i + 1..], to))[1..] == Taken(page[i + 1..], to);
      if e.id !in seen {
        seen := seen + {e.id};
        out := out + [e];
      }
      i := i + 1;
    }
  }

  // ---- the server's rules --------------------------------------------------------------

  // `cursorInclusive`: a continuation repeats the event at its cursor.
  // `endInclusive`: a window includes its end ledger.
  datatype Rules = Rules(cursorInclusive: bool, endInclusive: bool)

  predicate Placed(e: Event) { FirstOf(e.ledger) <= e.id < FirstOf(e.ledger + 1) }

  predicate History(h: seq<Event>)
  {
    && (forall i, j | 0 <= i < j < |h| :: h[i].id < h[j].id)
    && (forall e | e in h :: Placed(e))
  }

  // How many events lie below a position.
  function Below(h: seq<Event>, x: int): (n: nat)
    ensures n <= |h| && (forall k | 0 <= k < n :: h[k].id < x) && (n < |h| ==> x <= h[n].id)
  {
    if h == [] || x <= h[0].id then 0
    else
      assert forall k | 0 < k < |h| :: h[k] == h[1..][k - 1];
      1 + Below(h[1..], x)
  }

  lemma {:induction false} BelowMono(h: seq<Event>, x: int, y: int)
    requires x <= y
    ensures Below(h, x) <= Below(h, y)
  {
    if h != [] && h[0].id < x { BelowMono(h[1..], x, y); }
  }

  lemma BelowUnique(h: seq<Event>, x: int, n: nat)
    requires History(h) && n <= |h| && (n > 0 ==> h[n - 1].id < x) && (n < |h| ==> x <= h[n].id)
    ensures Below(h, x) == n
  {
    hide Below;
    var m := Below(h, x);
    assert forall k | 0 <= k < n :: h[k].id <= h[n - 1].id;
  }

  lemma HistorySlice(h: seq<Event>, a: nat, b: nat)
    requires History(h) && a <= b <= |h|
    ensures History(h[a..b])
  {
    assert forall k | 0 <= k < b - a :: h[a..b][k] == h[a + k];
  }

  // Counting inside a slice is counting in the whole, clipped.
  lemma BelowInSlice(h: seq<Event>, a: nat, b: nat, x: int)
    requires History(h) && a <= b <= |h|
    ensures History(h[a..b])
    ensures var n := Below(h, x);
            Below(h[a..b], x) == if n < a then 0 else if n < b then n - a else b - a
  {
    hide Below;
    HistorySlice(h, a, b);
    var s, n := h[a..b], Below(h, x);
    assert forall k | 0 <= k < |s| :: s[k] == h[a + k];
    var m := if n < a then 0 else if n < b then n - a else b - a;
    if n < a && a < b { assert x <= h[n].id < h[a].id; }
    BelowUnique(s, x, m);
  }

  // Where a request's events start and end in the history.
  function Start(h: seq<Event>, q: Request, rules: Rules): nat
  {
    match q
    case Window(from, _, _) => Below(h, FirstOf(from))
    case Continue(c, _) => Below(h, if rules.cursorInclusive then c else c + 1)
  }

  function End(h: seq<Event>, q: Request, rules: Rules): (e: nat)
    ensures Start(h, q, rules) <= e <= |h|
  {
    match q
    case Window(from, to, _) =>
      var e := Below(h, FirstOf(if rules.endInclusive then to + 1 else to));
      if e < Start(h, q, rules) then Start(h, q, rules) else e
    case Continue(_, _) => |h|
  }

  function Lo(h: seq<Event>, from: nat): nat { Below(h, FirstOf(from)) }

  function Hi(h: seq<Event>, from: nat, to: nat): (e: nat)
    ensures Lo(h, from) <= e <= |h|
  {
    var e := Below(h, FirstOf(to + 1));
    if e < Lo(h, from) then Lo(h, from) else e
  }

  // The matching events of [from, to], in ascending order.
  function InRange(h: seq<Event>, from: nat, to: nat): seq<Event> { h[Lo(h, from)..Hi(h, from, to)] }

  // A page is a run of what is available: as long as the limit allows, and
  // never empty while something is; its cursor skips nothing.
  ghost predicate Served(h: seq<Event>, q: Request, rules: Rules, resp: Response)
  {
    var i, e, n := Start(h, q, rules), End(h, q, rules), |resp.events|;
    && i + n <= e && resp.events == h[i..i + n]
    && (q.limit.Some? ==> n == if e - i < q.limit.value then e - i else q.limit.value)
    && (i < e && q.limit != Some(0) ==> n > 0)
    && (n > 0 ==> resp.cursor.At? && h[i + n - 1].id <= resp.cursor.pos
                  && forall k | i + n <= k < |h| :: resp.cursor.pos < h[k].id)
  }

  // Every answer follows the rules on the history of its moment, and the
  // scanned range is the same at every moment.
  ghost predicate Honest(server: Server, hist: nat -> seq<Event>, rules: Rules, from: nat, to: nat, wanted: seq<Event>)
  {
    forall n: nat, q: Request ::
      && History(hist(n)) && InRange(hist(n), from, to) == wanted
      && (server(n, q).Ok? ==> Served(hist(n), q, rules, server(n, q).value))
  }

  // ---- a scan against the wanted list -----------------------------------------------------

  // Exactly the first m wanted events lie at or before the cursor.
  ghost predicate Scanned(wanted: seq<Event>, m: nat, cursor: Cursor)
  {
    && m <= |wanted|
    && (forall k | 0 <= k < m :: wanted[k].id <= cursor)
    && (forall k | m <= k < |wanted| :: cursor < wanted[k].id)
  }

  lemma ByLedger(h: seq<Event>, l: nat)
    requires History(h)
    ensures forall k | 0 <= k < |h| :: h[k].ledger < l <==> k < Below(h, FirstOf(l))
  {
    hide Below;
    forall k | 0 <= k < |h|
      ensures h[k].ledger < l <==> k < Below(h, FirstOf(l))
    {
      assert Placed(h[k]);
      LedgerOrder(h[k], l);
    }
  }

  lemma LedgerOrder(e: Event, l: nat)
    requires Placed(e)
    ensures e.ledger < l <==> e.id < FirstOf(l)
  {
  }

  // What a page contributes: its events up to the end of the range.
  lemma TakenOf(h: seq<Event>, i: nat, k: nat, b: nat, to: nat)
    requires i <= k <= |h| && forall z | 0 <= z < |h| :: h[z].ledger <= to <==> z < b
    ensures Taken(h[i..k], to) == if b < i then [] else if k < b then h[i..k] else h[i..b]
  {
    hide Taken;
    var page := h[i..k];
    TakenMeaning(page, to);
    var t := Taken(page, to);
    assert |t| < k - i ==> page[|t|] == h[i + |t|];
    assert forall z | 0 <= z < |t| :: t[z] == h[i + z] && h[i + z].ledger <= to;
    assert |t| > 0 ==> h[i + |t| - 1].ledger <= to by { assert |t| > 0 ==> t[|t| - 1] == h[i + |t| - 1]; }
    var n := if b < i then 0 else if k < b then k - i else b - i;
    assert |t| == n;
    assert t == page[..n];
  }

  lemma SubSlice(h: seq<Event>, a: nat, i: nat, k: nat, b: nat)
    requires a <= i <= k <= b <= |h|
    ensures h[a..b][i - a..k - a] == h[i..k]
  {
    assert forall z | 0 <= z < k - i :: h[a..b][i - a..k - a][z] == h[i + z] == h[i..k][z];
  }

  lemma FreshStep(wanted: seq<Event>, m: nat, x: nat, y: nat)
    requires m <= |wanted| && x < y <= |wanted|
    ensures Fresh(Ids(wanted[..m]), wanted[x..y]) ==
            if wanted[x].id in Ids(wanted[..m]) then Fresh(Ids(wanted[..m]), wanted[x + 1..y])
            else [wanted[x]] + Fresh(Ids(wanted[..m]) + {wanted[x].id}, wanted[x + 1..y])
  {
    assert wanted[x..y][1..] == wanted[x + 1..y];
  }

  lemma IdsGrow(wanted: seq<Event>, m: nat)
    requires m < |wanted| && OnceEach(wanted)
    ensures wanted[..m + 1] == wanted[..m] + [wanted[m]]
    ensures wanted[m].id !in Ids(wanted[..m]) && Ids(wanted[..m + 1]) == Ids(wanted[..m]) + {wanted[m].id}
  {
  }

  lemma NoneFresh(seen: set<Cursor>, events: seq<Event>)
    requires events == []
    ensures Fresh(seen, events) == []
  {
  }

  lemma SeenEarlier(wanted: seq<Event>, x: nat, m: nat)
    requires x < m <= |wanted|
    ensures wanted[x].id in Ids(wanted[..m])
  {
    assert wanted[x] == wanted[..m][x];
  }

  lemma {:induction false} FreshOverlap(wanted: seq<Event>, m: nat, x: nat, y: nat)
    requires x <= m <= |wanted| && x <= y <= |wanted| && OnceEach(wanted)
    ensures wanted[..m] + Fresh(Ids(wanted[..m]), wanted[x..y]) == wanted[..if y < m then m else y]
    decreases y - x
  {
    hide *;
    if x == y {
      NoneFresh(Ids(wanted[..m]), wanted[x..y]);
    } else {
      FreshStep(wanted, m, x, y);
      if x < m {
        SeenEarlier(wanted, x, m);
        FreshOverlap(wanted, m, x + 1, y);
      } else {
        IdsGrow(wanted, m);
        FreshOverlap(wanted, m + 1, x + 1, y);
        var rest := Fresh(Ids(wanted[..m + 1]), wanted[m + 1..y]);
        assert wanted[..m] + ([wanted[m]] + rest) == wanted[..m + 1] + rest;
      }
    }
  }

  lemma RangeBounds(h: seq<Event>, from: nat, to: nat)
    requires History(h)
    ensures InRange(h, from, to) == h[Lo(h, from)..Hi(h, from, to)] &&
            |InRange(h, from, to)| == Hi(h, from, to) - Lo(h, from)
    ensures var past := Below(h, FirstOf(to + 1)); Hi(h, from, to) == if past < Lo(h, from) then Lo(h, from) else past
    ensures forall k | 0 <= k < |h| :: h[k].ledger <= to <==> k < Below(h, FirstOf(to + 1))
  {
    hide Below, FirstOf, History;
    ByLedger(h, to + 1);
  }

  // A page h[i..k] that reaches into the range h[a..b].
  lemma PageInRange(h: seq<Event>, from: nat, to: nat, i: nat, k: nat)
    requires History(h) && Lo(h, from) <= i <= k <= |h|
    ensures |InRange(h, from, to)| == Hi(h, from, to) - Lo(h, from)
    ensures var a, b, taken := Lo(h, from), Hi(h, from, to), Taken(h[i..k], to);
            if b < i then taken == []
            else var y := (if k < b then k else b) - a;
                 taken == InRange(h, from, to)[i - a..y] && (|taken| == k - i <==> k <= b)
  {
    hide *;
    RangeBounds(h, from, to);
    var a, b := Lo(h, from), Hi(h, from, to);
    TakenOf(h, i, k, Below(h, FirstOf(to + 1)), to);
    if i <= b { SubSlice(h, a, i, if k < b then k else b, b); }
  }

  // A cursor that leaves exactly h[k..] leaves exactly the rest of the range.
  lemma CursorCuts(h: seq<Event>, from: nat, to: nat, k: nat, pos: Cursor)
    requires History(h) && Lo(h, from) < k <= Hi(h, from, to) && h[k - 1].id <= pos &&
             forall z | k <= z < |h| :: pos < h[z].id
    ensures Scanned(InRange(h, from, to), k - Lo(h, from), pos)
  {
    hide Below;
    var s, a := InRange(h, from, to), Lo(h, from);
    forall z | 0 <= z < |s| ensures if z < k - a then s[z].id <= pos else pos < s[z].id {
      assert s[z] == h[a + z] && (a + z < k - 1 ==> h[a + z].id < h[k - 1].id);
    }
  }

  // The part of the wanted list that a window's server is asked for.
  ghost function Asked(wanted: seq<Event>, to: nat, rules: Rules): (n: nat)
    ensures n <= |wanted|
  {
    if rules.endInclusive then |wanted| else Below(wanted, FirstOf(to))
  }

  lemma WindowAsks(h: seq<Event>, from: nat, to: nat, limit: Option<nat>, rules: Rules)
    requires History(h)
    ensures var q := Window(from, to, limit);
            && Start(h, q, rules) == Lo(h, from)
            && End(h, q, rules) == Lo(h, from) + Asked(InRange(h, from, to), to, rules)
  {
    hide Below;
    BelowInSlice(h, Lo(h, from), Hi(h, from, to), FirstOf(to));
    BelowMono(h, FirstOf(to), FirstOf(to + 1));
  }

  lemma FirstPage(h: seq<Event>, from: nat, to: nat, limit: Option<nat>, rules: Rules, resp: Response)
    requires History(h) && Served(h, Window(from, to, limit), rules, resp)
    ensures var wanted, n := InRange(h, from, to), |resp.events|;
            && n <= Asked(wanted, to, rules) && Taken(resp.events, to) == wanted[..n]
            && ((limit.Some? && n < limit.value) || (n == 0 && limit != Some(0)) ==> n == Asked(wanted, to, rules))
            && (n > 0 ==> resp.cursor.At? && FirstOf(from) <= resp.cursor.pos && Scanned(wanted, n, resp.cursor.pos))
  {
    hide Below, Taken, History, InRange, Scanned;
    WindowAsks(h, from, to, limit, rules);
    var a, n := Lo(h, from), |resp.events|;
    PageInRange(h, from, to, a, a + n);
    assert InRange(h, from, to)[a - a..n] == InRange(h, from, to)[..n];
    if n > 0 {
      CursorCuts(h, from, to, a + n, resp.cursor.pos);
      Ascending(h, a, a + n - 1);
    }
  }

  // Where a continuation starts: past what is collected, or repeating its end.
  lemma NextStart(h: seq<Event>, from: nat, to: nat, cursor: Cursor, limit: Option<nat>, rules: Rules, m: nat)
    requires History(h) && FirstOf(from) <= cursor && Scanned(InRange(h, from, to), m, cursor)
    ensures var a, b, i := Lo(h, from), Hi(h, from, to), Start(h, Continue(cursor, limit), rules);
            && a <= i
            && (i <= b ==> i - a <= m <= i - a + (if rules.cursorInclusive then 1 else 0))
            && (b < i ==> m == b - a)
            && m <= |InRange(h, from, to)|
  {
    hide Below;
    var wanted, a, b := InRange(h, from, to), Lo(h, from), Hi(h, from, to);
    var i := Start(h, Continue(cursor, limit), rules);
    BelowMono(h, FirstOf(from), if rules.cursorInclusive then cursor else cursor + 1);
    assert m < |wanted| ==> wanted[m] == h[a + m] && cursor < h[a + m].id;
    assert m > 0 ==> wanted[m - 1] == h[a + m - 1] && h[a + m - 1].id <= cursor;
    assert m > 0 ==> forall k | 0 <= k < a + m - 1 :: h[k].id < h[a + m - 1].id;
  }

  // A later page: the wanted events from its start on, up to its own end.
  lemma NextPage(h: seq<Event>, from: nat, to: nat, cursor: Cursor, limit: Option<nat>, rules: Rules,
                 resp: Response, m: nat)
    returns (x: nat, y: nat)
    requires History(h) && FirstOf(from) <= cursor && Scanned(InRange(h, from, to), m, cursor)
    requires Served(h, Continue(cursor, limit), rules, resp)
    ensures var wanted, taken, n := InRange(h, from, to), Taken(resp.events, to), |resp.events|;
            && x <= m && x <= y <= |wanted| && (!rules.cursorInclusive ==> x == m) && taken == wanted[x..y]
            && (|taken| < n || (limit.Some? && n < limit.value) || (n == 0 && limit != Some(0)) ==>
                  y == |wanted| || m == |wanted|)
            && (|taken| == n > 0 ==> x == Start(h, Continue(cursor, limit), rules) - Lo(h, from))
  {
    hide Below, Taken, History, InRange, Scanned, FirstOf, Lo, Hi, Start;
    NextStart(h, from, to, cursor, limit, rules, m);
    x, y := NextRun(h, from, to, Start(h, Continue(cursor, limit), rules), |resp.events|, m, rules.cursorInclusive);
  }

  // The run of n events at i, seen from the wanted ones.
  lemma NextRun(h: seq<Event>, from: nat, to: nat, i: nat, n: nat, m: nat, overlap: bool) returns (x: nat, y: nat)
    requires History(h) && Lo(h, from) <= i && i + n <= |h|
    requires i <= Hi(h, from, to) ==> i - Lo(h, from) <= m <= i - Lo(h, from) + (if overlap then 1 else 0)
    requires Hi(h, from, to) < i ==> m == Hi(h, from, to) - Lo(h, from)
    requires m <= |InRange(h, from, to)|
    ensures var wanted, taken := InRange(h, from, to), Taken(h[i..i + n], to);
            && x <= m && x <= y <= |wanted| && (!overlap ==> x == m) && taken == wanted[x..y]
            && (|taken| < n || i + n == |h| ==> y == |wanted| || m == |wanted|)
            && (|taken| == n > 0 ==> x == i - Lo(h, from))
  {
    hide Below, Taken, History, InRange, FirstOf, Lo, Hi;
    PageInRange(h, from, to, i, i + n);
    var a, b := Lo(h, from), Hi(h, from, to);
    if b < i {
      x, y := m, m;
    } else {
      x, y := i - a, (if i + n < b then i + n else b) - a;
    }
  }

  // A full page's cursor advances past it.
  lemma NextCursor(h: seq<Event>, from: nat, to: nat, cursor: Cursor, limit: Option<nat>, rules: Rules,
                   resp: Response, m: nat)
    requires History(h) && FirstOf(from) <= cursor && Scanned(InRange(h, from, to), m, cursor)
    requires Served(h, Continue(cursor, limit), rules, resp)
    requires |Taken(resp.events, to)| == |resp.events| > if rules.cursorInclusive then 1 else 0
    ensures var y := Start(h, Continue(cursor, limit), rules) - Lo(h, from) + |resp.events|;
            && m <= y <= |InRange(h, from, to)| && resp.cursor.At? && cursor < resp.cursor.pos
            && FirstOf(from) <= resp.cursor.pos && Scanned(InRange(h, from, to), y, resp.cursor.pos)
  {
    hide *;
    CursorAdvances(h, cursor, limit, rules, resp);
    PageRun(h, cursor, limit, rules, resp);
    NextStart(h, from, to, cursor, limit, rules, m);
    FullRun(h, from, to, Start(h, Continue(cursor, limit), rules), |resp.events|, m, rules.cursorInclusive,
            resp.cursor.pos);
  }

  lemma FullRun(h: seq<Event>, from: nat, to: nat, i: nat, n: nat, m: nat, overlap: bool, pos: Cursor)
    requires History(h) && Lo(h, from) <= i && i + n <= |h|
    requires i <= Hi(h, from, to) ==> m <= i - Lo(h, from) + (if overlap then 1 else 0)
    requires |Taken(h[i..i + n], to)| == n > if overlap then 1 else 0
    requires h[i + n - 1].id <= pos && forall k | i + n <= k < |h| :: pos < h[k].id
    ensures m <= i - Lo(h, from) + n <= |InRange(h, from, to)|
    ensures Scanned(InRange(h, from, to), i - Lo(h, from) + n, pos)
  {
    hide Below, Taken, History, InRange, Scanned, FirstOf, Lo, Hi;
    PageInRange(h, from, to, i, i + n);
    CursorCuts(h, from, to, i + n, pos);
  }

  lemma PageRun(h: seq<Event>, cursor: Cursor, limit: Option<nat>, rules: Rules, resp: Response)
    requires Served(h, Continue(cursor, limit), rules, resp)
    ensures var i, n := Start(h, Continue(cursor, limit), rules), |resp.events|;
            && i + n <= |h| && resp.events == h[i..i + n]
            && (n > 0 ==>
                  resp.cursor.At? && h[i + n - 1].id <= resp.cursor.pos &&
                  forall k | i + n <= k < |h| :: resp.cursor.pos < h[k].id)
  {
  }

  lemma CursorAdvances(h: seq<Event>, cursor: Cursor, limit: Option<nat>, rules: Rules, resp: Response)
    requires History(h) && Served(h, Continue(cursor, limit), rules, resp)
    requires |resp.events| > if rules.cursorInclusive then 1 else 0
    ensures resp.cursor.At? && cursor < resp.cursor.pos
  {
    hide Below, History;
    var i, n := Start(h, Continue(cursor, limit), rules), |resp.events|;
    Ascending(h, i, i + n - 1);
  }

  lemma Ascending(h: seq<Event>, i: nat, j: nat)
    requires History(h) && i <= j < |h|
    ensures i < j ==> h[i].id < h[j].id
  {
  }
}
