/**
 bindings/generator: where the splitters cut, said by counting the brackets that
 stand before each separator, and what trimming leaves of a piece.
 */
module SplitPositions {
  import opened Wrappers
  import opened Splitting

  function Count(s: string, c: char): nat
  {
    if s == "" then 0 else Count(s[..|s| - 1], c) + (if s[|s| - 1] == c then 1 else 0)
  }

  // ---- splitTopLevel ------------------------------------------------------------------

  // Every bracket of this kind is closed again: no tail opens more than it closes.
  predicate NoneOpen(p: string, open: char, close: char)
  {
    forall k | 0 <= k <= |p| :: Count(p[k..], open) <= Count(p[k..], close)
  }

  predicate AtTop(p: string) { NoneOpen(p, '<', '>') && NoneOpen(p, '(', ')') && NoneOpen(p, '{', '}') }

  // A counter that stops at zero.
  function Counter(p: string, open: char, close: char): nat
  {
    if p == "" then 0
    else
      var n := Counter(p[..|p| - 1], open, close);
      if p[|p| - 1] == open then n + 1 else if p[|p| - 1] == close then Less(n) else n
  }

  // It holds the most that any tail leaves open.
  lemma {:induction false} CounterIsMost(p: string, open: char, close: char) returns (k: nat)
    requires open != close
    ensures k <= |p| && Counter(p, open, close) == Count(p[k..], open) - Count(p[k..], close)
    ensures forall j | 0 <= j <= |p| :: Count(p[j..], open) - Count(p[j..], close) <= Counter(p, open, close)
  {
    if p == "" {
      k := 0;
    } else {
      var init, last := p[..|p| - 1], p[|p| - 1];
      k := CounterIsMost(init, open, close);
      forall j | 0 <= j < |p|
        ensures Count(p[j..], open) == Count(init[j..], open) + (if last == open then 1 else 0)
        ensures Count(p[j..], close) == Count(init[j..], close) + (if last == close then 1 else 0)
      {
        assert p[j..][..|p[j..]| - 1] == init[j..];
      }
      assert p[|p|..] == "" && init[|init|..] == "";
      if Counter(init, open, close) == 0 && last == close { k := |p|; }
    }
  }

  lemma CounterZero(p: string, open: char, close: char)
    requires open != close
    ensures Counter(p, open, close) == 0 <==> NoneOpen(p, open, close)
  {
    var k := CounterIsMost(p, open, close);
    assert p[|p|..] == "";
  }

  function After(p: string): Depths
  {
    if p == "" then TOP else Nest(After(p[..|p| - 1]), p[|p| - 1])
  }

  lemma {:induction false} AfterCounts(p: string)
    ensures After(p) == Depths(Counter(p, '<', '>'), Counter(p, '(', ')'), Counter(p, '{', '}'))
  {
    if p != "" { AfterCounts(p[..|p| - 1]); }
  }

  lemma AfterTop(p: string)
    ensures After(p) == TOP <==> AtTop(p)
  {
    AfterCounts(p);
    CounterZero(p, '<', '>');
    CounterZero(p, '(', ')');
    CounterZero(p, '{', '}');
  }

  // A separator that splits: nothing is open once it has been read.
  predicate Splits(s: string, sep: char, i: nat)
    requires i < |s|
  {
    s[i] == sep && AtTop(s[..i + 1])
  }

  lemma {:induction false} ReadsOn(s: string, sep: char, i: nat)
    requires i <= |s| && forall j | 0 <= j < i :: !Splits(s, sep, j)
    ensures Split(s, sep, TOP, "") == Split(s[i..], sep, After(s[..i]), s[..i])
  {
    if i == 0 {
      assert s[0..] == s;
    } else {
      ReadsOn(s, sep, i - 1);
      StepsOn(s, sep, i - 1);
      assert s[..i] == s[..i - 1] + [s[i - 1]];
    }
  }

  lemma StepsOn(s: string, sep: char, i: nat)
    requires i < |s|
    ensures var d := After(s[..i]);
            && Nest(d, s[i]) == After(s[..i + 1])
            && (Cuts(d, s[i], sep) <==> Splits(s, sep, i))
            && Split(s[i..], sep, d, s[..i]) ==
               if Splits(s, sep, i) then [s[..i]] + Split(s[i + 1..], sep, TOP, "")
               else Split(s[i + 1..], sep, After(s[..i + 1]), s[..i] + [s[i]])
  {
    assert s[..i + 1][..i] == s[..i] && s[..i + 1][i] == s[i];
    assert s[i..][0] == s[i] && s[i..][1..] == s[i + 1..];
    AfterTop(s[..i + 1]);
  }

  // The text is cut at its first splitting separator, and the rest alike; without
  // one it is a single piece.
  lemma SplitsAtFirst(s: string, sep: char, i: nat)
    requires i <= |s| && forall j | 0 <= j < i :: !Splits(s, sep, j)
    ensures i < |s| && Splits(s, sep, i) ==> Split(s, sep, TOP, "") == [s[..i]] + Split(s[i + 1..], sep, TOP, "")
    ensures i == |s| ==> Split(s, sep, TOP, "") == if s == "" then [] else [s]
  {
    ReadsOn(s, sep, i);
    if i < |s| { StepsOn(s, sep, i); } else { assert s[i..] == "" && s[..i] == s; }
  }

  // ---- splitReturnType and splitParams -----------------------------------------------------

  // How many more brackets are opened than closed.
  function Excess(p: string, parens: bool): int
  {
    Count(p, '<') - Count(p, '>') + if parens then Count(p, '(') - Count(p, ')') else 0
  }

  predicate SplitsTrimmed(s: string, parens: bool, i: nat)
    requires i < |s|
  {
    s[i] == ',' && Excess(s[..i], parens) == 0
  }

  lemma {:induction false} ReadsOnTrimmed(s: string, parens: bool, i: nat)
    requires i <= |s| && forall j | 0 <= j < i :: !SplitsTrimmed(s, parens, j)
    ensures SplitTrimmed(s, parens, 0, "") == SplitTrimmed(s[i..], parens, Excess(s[..i], parens), s[..i])
  {
    if i == 0 {
      assert s[0..] == s;
    } else {
      ReadsOnTrimmed(s, parens, i - 1);
      StepsOnTrimmed(s, parens, i - 1);
      assert s[..i] == s[..i - 1] + [s[i - 1]];
    }
  }

  lemma StepsOnTrimmed(s: string, parens: bool, i: nat)
    requires i < |s|
    ensures SplitTrimmed(s[i..], parens, Excess(s[..i], parens), s[..i]) ==
            if SplitsTrimmed(s, parens, i) then [Trim(s[..i])] + SplitTrimmed(s[i + 1..], parens, 0, "")
            else SplitTrimmed(s[i + 1..], parens, Excess(s[..i + 1], parens), s[..i] + [s[i]])
  {
    assert s[..i + 1][..i] == s[..i] && s[..i + 1][i] == s[i];
    assert s[i..][0] == s[i] && s[i..][1..] == s[i + 1..];
    hide Trim;
  }

  // The same for the one-counter splitters: trimmed at the first comma before which
  // as many brackets are closed as opened, and a blank end is dropped.
  lemma SplitsTrimmedAtFirst(s: string, parens: bool, i: nat)
    requires i <= |s| && forall j | 0 <= j < i :: !SplitsTrimmed(s, parens, j)
    ensures i < |s| && SplitsTrimmed(s, parens, i) ==>
              SplitTrimmed(s, parens, 0, "") == [Trim(s[..i])] + SplitTrimmed(s[i + 1..], parens, 0, "")
    ensures i == |s| ==> SplitTrimmed(s, parens, 0, "") == if Trim(s) == "" then [] else [Trim(s)]
  {
    ReadsOnTrimmed(s, parens, i);
    if i < |s| { StepsOnTrimmed(s, parens, i); } else { assert s[i..] == "" && s[..i] == s; }
  }

  // ---- trimming -----------------------------------------------------------------------------

  predicate Blank(s: string) { forall i | 0 <= i < |s| :: IsSpace(s[i]) }

  // A trimmed text is the original without blanks around it, and has none left there.
  lemma TrimReads(s: string) returns (before: string, after: string)
    ensures s == before + Trim(s) + after && Blank(before) && Blank(after)
    ensures Trim(s) != "" ==> !IsSpace(Trim(s)[0]) && !IsSpace(Trim(s)[|Trim(s)| - 1])
  {
    before := TrimLeftReads(s);
    after := TrimRightReads(TrimLeft(s));
    assert TrimLeft(s) == Trim(s) + after;
    if Trim(s) != "" { assert Trim(s)[0] == TrimLeft(s)[0]; }
  }

  lemma {:induction false} TrimLeftReads(s: string) returns (before: string)
    ensures s == before + TrimLeft(s) && Blank(before)
    ensures TrimLeft(s) != "" ==> !IsSpace(TrimLeft(s)[0])
  {
    before := "";
    if s != "" && IsSpace(s[0]) {
      before := TrimLeftReads(s[1..]);
      before := [s[0]] + before;
    }
  }

  lemma {:induction false} TrimRightReads(s: string) returns (after: string)
    ensures s == TrimRight(s) + after && Blank(after)
    ensures TrimRight(s) != "" ==> !IsSpace(TrimRight(s)[|TrimRight(s)| - 1])
  {
    after := "";
    if s != "" && IsSpace(s[|s| - 1]) {
      after := TrimRightReads(s[..|s| - 1]);
      after := after + [s[|s| - 1]];
    }
  }
}
