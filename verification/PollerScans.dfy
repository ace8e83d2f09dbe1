/**
 ccv/destination_reader: the poller over one event history.  Each of its windows
 is answered by the event scan, also when the server leaves out a window's end
 ledger: the next window asks for that ledger again.
 */
module PollerScans {
  import opened Wrappers
  import opened AttemptPoller
  import Pages = EventPages
  import Scans = EventScans

  // How a history event parses.
  type Parser = Pages.Event -> Raw

  function ParseAll(events: seq<Pages.Event>, parse: Parser): (r: seq<Raw>)
    ensures |r| == |events| && forall i | 0 <= i < |r| :: r[i] == parse(events[i])
  {
    seq(|events|, i requires 0 <= i < |events| => parse(events[i]))
  }

  ghost predicate Opens(s: State, a: Action)
  {
    a.PollBegins? && a.events.Ok? && s.poll.Waiting? && a.latest > s.lastPolled
  }

  // Every window a run opens returns what the scan collects from the history.
  ghost predicate Answered(hash: string -> MessageId, s: State, actions: seq<Action>, h: seq<Pages.Event>,
                           rules: Pages.Rules, parse: Parser)
    requires Pages.History(h)
    decreases |actions|
  {
    actions != [] ==>
      && (Opens(s, actions[0]) ==>
            var to := actions[0].latest;
            actions[0].events.value == ParseAll(Scans.Collected(Pages.InRange(h, s.lastPolled, to), to, rules), parse))
      && (match Next(hash, s, actions[0])
          case None => true
          case Some(n) => Answered(hash, n, actions[1..], h, rules, parse))
  }

  // Everything before a window's end ledger is collected, under either rule.
  lemma CollectedHolds(h: seq<Pages.Event>, from: nat, to: nat, rules: Pages.Rules, e: Pages.Event)
    requires Pages.History(h) && e in h && from <= e.ledger < to
    ensures e in Scans.Collected(Pages.InRange(h, from, to), to, rules)
  {
    hide Pages.Below, Pages.FirstOf, Pages.History, Pages.Lo, Pages.Hi;
    Pages.HistorySlice(h, Pages.Lo(h, from), Pages.Hi(h, from, to));
    var k := InRangeAt(h, from, to, e);
    var wanted := Pages.InRange(h, from, to);
    Pages.ByLedger(wanted, to);
    assert wanted[..Pages.Asked(wanted, to, rules)][k] == e;
  }

  lemma InRangeAt(h: seq<Pages.Event>, from: nat, to: nat, e: Pages.Event) returns (k: nat)
    requires Pages.History(h) && e in h && from <= e.ledger <= to
    ensures k < |Pages.InRange(h, from, to)| && Pages.InRange(h, from, to)[k] == e
  {
    hide Pages.Below, Pages.FirstOf, Pages.History;
    var i :| 0 <= i < |h| && h[i] == e;
    Pages.ByLedger(h, from);
    Pages.ByLedger(h, to + 1);
    k := i - Pages.Lo(h, from);
  }

  function Frontier(s: State): nat { if s.poll.Window? then s.poll.to else s.lastPolled }

  // Every history event from the start to the frontier that parses was fetched.
  ghost predicate FetchedBefore(s: State, start: nat, h: seq<Pages.Event>, parse: Parser)
  {
    forall e | e in h && start <= e.ledger < Frontier(s) && parse(e).Parsed? :: parse(e).event in s.trace.fetched
  }

  lemma StepFetches(hash: string -> MessageId, s: State, actions: seq<Action>, start: nat, h: seq<Pages.Event>,
                    rules: Pages.Rules, parse: Parser)
    requires Pages.History(h) && actions != [] && Answered(hash, s, actions, h, rules, parse)
    requires Next(hash, s, actions[0]).Some? && FetchedBefore(s, start, h, parse)
    ensures FetchedBefore(Next(hash, s, actions[0]).value, start, h, parse)
  {
    var a := actions[0];
    var n := Next(hash, s, a).value;
    if Opens(s, a) {
      WindowFetches(s, n, a, start, h, rules, parse);
    } else {
      assert Frontier(n) == Frontier(s) && s.trace.fetched <= n.trace.fetched;
    }
  }

  lemma WindowFetches(s: State, n: State, a: Action, start: nat, h: seq<Pages.Event>, rules: Pages.Rules, parse: Parser)
    requires Pages.History(h) && FetchedBefore(s, start, h, parse) && Opens(s, a)
    requires Frontier(n) == a.latest && n.trace.fetched == s.trace.fetched + EventsOf(a.events.value)
    requires a.events.value == ParseAll(Scans.Collected(Pages.InRange(h, s.lastPolled, a.latest), a.latest, rules),
                                        parse)
    ensures FetchedBefore(n, start, h, parse)
  {
    forall e | e in h && start <= e.ledger < a.latest && parse(e).Parsed? ensures parse(e).event in n.trace.fetched {
      if e.ledger >= s.lastPolled {
        CollectedHolds(h, s.lastPolled, a.latest, rules, e);
        var collected := Scans.Collected(Pages.InRange(h, s.lastPolled, a.latest), a.latest, rules);
        var i :| 0 <= i < |collected| && collected[i] == e;
        assert a.events.value[i] == parse(e) && parse(e) in a.events.value;
      }
    }
  }

  lemma {:induction false} RunFetches(hash: string -> MessageId, s: State, actions: seq<Action>, start: nat,
                                      h: seq<Pages.Event>, rules: Pages.Rules, parse: Parser)
    requires Pages.History(h) && Run(hash, s, actions).Some?
    requires Answered(hash, s, actions, h, rules, parse) && FetchedBefore(s, start, h, parse)
    ensures FetchedBefore(Run(hash, s, actions).value, start, h, parse)
    decreases |actions|
  {
    if actions != [] {
      StepFetches(hash, s, actions, start, h, rules, parse);
      RunFetches(hash, Next(hash, s, actions[0]).value, actions[1..], start, h, rules, parse);
    }
  }

  // Under any interleaving and either end-of-window rule, every event of the
  // history from the start ledger up to the last polled one was fetched, and so is
  // accounted for.
  lemma HistoryAccounted(hash: string -> MessageId, start: nat, actions: seq<Action>, h: seq<Pages.Event>,
                         rules: Pages.Rules, parse: Parser, e: Pages.Event)
    requires Pages.History(h) && Run(hash, Initial(start), actions).Some?
    requires Answered(hash, Initial(start), actions, h, rules, parse)
    requires var s := Run(hash, Initial(start), actions).value;
             e in h && start <= e.ledger < s.lastPolled && parse(e).Parsed?
    ensures var s := Run(hash, Initial(start), actions).value;
            parse(e).event in s.trace.fetched && Accounted(s, parse(e).event)
  {
    InitialOk(hash, start);
    RunKeeps(hash, Initial(start), actions);
    RunFetches(hash, Initial(start), actions, start, h, rules, parse);
    hide Accounted;
    var s := Run(hash, Initial(start), actions).value;
    WindowAhead(s);
  }

  lemma WindowAhead(s: State)
    requires WindowsOk(s)
    ensures s.lastPolled <= Frontier(s)
  {
  }
}
