/**
 bindings/generator: the bracket-aware splitting of Rust source text, over runes.
 */
module Splitting {
  import opened Wrappers

  // ---- splitTopLevel: three nesting counters that stop at zero -------------------------

  datatype Depths = Depths(angle: nat, paren: nat, brace: nat)

  const TOP: Depths := Depths(0, 0, 0)

  function Less(n: nat): nat { if n > 0 then n - 1 else 0 }

  function Nest(d: Depths, c: char): Depths
  {
    match c
    case '<' => d.(angle := d.angle + 1)
    case '>' => d.(angle := Less(d.angle))
    case '(' => d.(paren := d.paren + 1)
    case ')' => d.(paren := Less(d.paren))
    case '{' => d.(brace := d.brace + 1)
    case '}' => d.(brace := Less(d.brace))
    case _ => d
  }

  predicate Cuts(d: Depths, c: char, sep: char) { c == sep && Nest(d, c) == TOP }

  // The pieces of the rest of the text, `cur` being the piece in progress.
  function Split(s: string, sep: char, d: Depths, cur: string): seq<string>
    decreases |s|
  {
    if s == "" then if cur == "" then [] else [cur]
    else if Cuts(d, s[0], sep) then [cur] + Split(s[1..], sep, TOP, "")
    else Split(s[1..], sep, Nest(d, s[0]), cur + [s[0]])
  }

  method SplitTopLevel(s: string, sep: char) returns (out: seq<string>)
    ensures out == Split(s, sep, TOP, "")
  {
    out := [];
    var cur := "";
    var angle: nat, paren: nat, brace: nat := 0, 0, 0;
    for i := 0 to |s|
      invariant out + Split(s[i..], sep, Depths(angle, paren, brace), cur) == Split(s, sep, TOP, "")
    {
      var r := s[i];
      ghost var d := Depths(angle, paren, brace);
      match r {
        case '<' => angle := angle + 1;
        case '>' => if angle > 0 { angle := angle - 1; }
        case '(' => paren := paren + 1;
        case ')' => if paren > 0 { paren := paren - 1; }
        case '{' => brace := brace + 1;
        case '}' => if brace > 0 { brace := brace - 1; }
        case _ =>
      }
      assert Depths(angle, paren, brace) == Nest(d, r);
      assert s[i..][1..] == s[i + 1..];
      if r == sep && angle == 0 && paren == 0 && brace == 0 {
        out := out + [cur];
        cur := "";
      } else {
        cur := cur + [r];
      }
    }
    if |cur| > 0 { out := out + [cur]; }
  }

  function Join(items: seq<string>, sep: char): string
  {
    if items == [] then "" else if |items| == 1 then items[0] else items[0] + [sep] + Join(items[1..], sep)
  }

  // The text ends with a separator at the top level.
  predicate EndsCut(s: string, sep: char, d: Depths)
    decreases |s|
  {
    s != "" && if |s| == 1 then Cuts(d, s[0], sep) else EndsCut(s[1..], sep, Nest(d, s[0]))
  }

  // Joining the pieces restores the text, up to one trailing separator.
  lemma {:induction false} JoinRestores(s: string, sep: char, d: Depths, cur: string)
    ensures cur + s == Join(Split(s, sep, d, cur), sep) + (if EndsCut(s, sep, d) then [sep] else "")
    decreases |s|
  {
    if s != "" {
      if Cuts(d, s[0], sep) {
        JoinRestores(s[1..], sep, TOP, "");
        RestoredAtCut(s, sep, d, cur);
      } else {
        JoinRestores(s[1..], sep, Nest(d, s[0]), cur + [s[0]]);
        hide Join;
        assert cur + s == cur + [s[0]] + s[1..];
        assert |s| == 1 ==> s[1..] == "";
      }
    }
  }

  lemma RestoredAtCut(s: string, sep: char, d: Depths, cur: string)
    requires s != "" && Cuts(d, s[0], sep)
    requires "" + s[1..] == Join(Split(s[1..], sep, TOP, ""), sep) + (if EndsCut(s[1..], sep, TOP) then [sep] else "")
    ensures cur + s == Join(Split(s, sep, d, cur), sep) + (if EndsCut(s, sep, d) then [sep] else "")
  {
    var rest := s[1..];
    NoPieces(rest, sep, TOP, "");
    JoinHead(cur, Split(rest, sep, TOP, ""), sep);
    SplitAtCut(s, sep, d, cur);
    hide *;
    var tail := if EndsCut(rest, sep, TOP) then [sep] else "";
    assert "" + rest == rest && cur + s == cur + [sep] + rest;
    if rest != "" {
      var joined := Join(Split(rest, sep, TOP, ""), sep);
      assert cur + [sep] + (joined + tail) == cur + [sep] + joined + tail;
    }
  }

  lemma SplitAtCut(s: string, sep: char, d: Depths, cur: string)
    requires s != "" && Cuts(d, s[0], sep)
    ensures s[0] == sep && Split(s, sep, d, cur) == [cur] + Split(s[1..], sep, TOP, "")
    ensures EndsCut(s, sep, d) <==> s[1..] == "" || EndsCut(s[1..], sep, TOP)
    ensures s[1..] == "" ==> !EndsCut(s[1..], sep, TOP)
  {
  }

  lemma JoinHead(x: string, rest: seq<string>, sep: char)
    ensures Join([x] + rest, sep) == if rest == [] then x else x + [sep] + Join(rest, sep)
  {
    assert ([x] + rest)[1..] == rest;
  }

  lemma {:induction false} NoPieces(s: string, sep: char, d: Depths, cur: string)
    ensures Split(s, sep, d, cur) == [] <==> cur == "" && s == ""
    decreases |s|
  {
    if s != "" && !Cuts(d, s[0], sep) { NoPieces(s[1..], sep, Nest(d, s[0]), cur + [s[0]]); }
  }

  // ---- splitting a join ---------------------------------------------------------------------

  // The item has no separator of its own at the top level and closes what it opens.
  predicate Balanced(item: string, sep: char, d: Depths)
    decreases |item|
  {
    if item == "" then d == TOP else !Cuts(d, item[0], sep) && Balanced(item[1..], sep, Nest(d, item[0]))
  }

  predicate NotBracket(sep: char) { sep !in "<>(){}" }

  lemma {:induction false} SplitAfterItem(item: string, s: string, sep: char, d: Depths, cur: string)
    requires Balanced(item, sep, d)
    ensures Split(item + s, sep, d, cur) == Split(s, sep, TOP, cur + item)
    decreases |item|
  {
    if item == "" {
      assert item + s == s && cur + item == cur;
    } else {
      assert (item + s)[1..] == item[1..] + s;
      SplitAfterItem(item[1..], s, sep, Nest(d, item[0]), cur + [item[0]]);
      assert cur + [item[0]] + item[1..] == cur + item;
    }
  }

  // Splitting the join of balanced items returns them, all but an empty last one.
  lemma {:induction false} SplitInvertsJoin(items: seq<string>, sep: char)
    requires NotBracket(sep) && forall x | x in items :: Balanced(x, sep, TOP)
    ensures Split(Join(items, sep), sep, TOP, "") ==
            if items != [] && items[|items| - 1] == "" then items[..|items| - 1] else items
    decreases |items|
  {
    if |items| == 1 {
      SplitAfterItem(items[0], "", sep, TOP, "");
      assert items[0] + "" == items[0] && "" + items[0] == items[0];
    } else if |items| > 1 {
      var rest := Join(items[1..], sep);
      assert Join(items, sep) == items[0] + ([sep] + rest);
      SplitAfterItem(items[0], [sep] + rest, sep, TOP, "");
      assert ([sep] + rest)[1..] == rest && "" + items[0] == items[0];
      assert Nest(TOP, sep) == TOP;
      SplitInvertsJoin(items[1..], sep);
      assert items == [items[0]] + items[1..];
    }
  }

  // ---- splitReturnType and splitParams: one counter that may go negative -----------------------

  // unicode.IsSpace.
  predicate IsSpace(c: char)
  {
    var n := c as int;
    || 0x09 <= n <= 0x0D || n in {0x20, 0x85, 0xA0, 0x1680, 0x2028, 0x2029, 0x202F, 0x205F, 0x3000} ||
       0x2000 <= n <= 0x200A
  }

  function TrimLeft(s: string): string
  {
    if s != "" && IsSpace(s[0]) then TrimLeft(s[1..]) else s
  }

  function TrimRight(s: string): string
  {
    if s != "" && IsSpace(s[|s| - 1]) then TrimRight(s[..|s| - 1]) else s
  }

  function Trim(s: string): string { TrimRight(TrimLeft(s)) }

  // splitParams does not count parentheses.
  function Weight(c: char, parens: bool): int
  {
    if c == '<' || (parens && c == '(') then 1 else if c == '>' || (parens && c == ')') then -1 else 0
  }

  function SplitTrimmed(s: string, parens: bool, depth: int, cur: string): seq<string>
    decreases |s|
  {
    if s == "" then if Trim(cur) == "" then [] else [Trim(cur)]
    else if s[0] == ',' && depth == 0 then [Trim(cur)] + SplitTrimmed(s[1..], parens, depth, "")
    else SplitTrimmed(s[1..], parens, depth + Weight(s[0], parens), cur + [s[0]])
  }

  method SplitReturnType(s: string) returns (result: seq<string>)
    ensures result == SplitTrimmed(s, true, 0, "")
  {
    result := [];
    var current, depth := "", 0;
    for i := 0 to |s|
      invariant result + SplitTrimmed(s[i..], true, depth, current) == SplitTrimmed(s, true, 0, "")
    {
      assert s[i..][1..] == s[i + 1..];
      match s[i] {
        case '<' => depth := depth + 1; current := current + [s[i]];
        case '(' => depth := depth + 1; current := current + [s[i]];
        case '>' => depth := depth - 1; current := current + [s[i]];
        case ')' => depth := depth - 1; current := current + [s[i]];
        case ',' =>
          if depth == 0 {
            result := result + [Trim(current)];
            current := "";
          } else {
            current := current + [s[i]];
          }
        case _ => current := current + [s[i]];
      }
    }
    if Trim(current) != "" { result := result + [Trim(current)]; }
  }

  method SplitParams(params: string) returns (result: seq<string>)
    ensures result == SplitTrimmed(params, false, 0, "")
  {
    result := [];
    var current, depth := "", 0;
    for i := 0 to |params|
      invariant result + SplitTrimmed(params[i..], false, depth, current) == SplitTrimmed(params, false, 0, "")
    {
      assert params[i..][1..] == params[i + 1..];
      match params[i] {
        case '<' => depth := depth + 1; current := current + [params[i]];
        case '>' => depth := depth - 1; current := current + [params[i]];
        case ',' =>
          if depth == 0 {
            result := result + [Trim(current)];
            current := "";
          } else {
            current := current + [params[i]];
          }
        case _ => current := current + [params[i]];
      }
    }
    if Trim(current) != "" { result := result + [Trim(current)]; }
  }

  // No bracket that only one of the splitters counts, and none closed that is not open.
  predicate Plain(s: string, parens: bool, d: Depths)
    decreases |s|
  {
    s != "" ==>
      && s[0] !in "{}" && (s[0] == '>' ==> d.angle > 0)
      && (s[0] == '(' ==> parens) && (s[0] == ')' ==> parens && d.paren > 0)
      && Plain(s[1..], parens, Nest(d, s[0]))
  }

  function TrimAll(pieces: seq<string>): seq<string>
  {
    seq(|pieces|, i requires 0 <= i < |pieces| => Trim(pieces[i]))
  }

  // What trimming makes of the pieces: an unfinished blank one disappears.
  function Trimmed(pieces: seq<string>, endsCut: bool): seq<string>
  {
    if pieces != [] && !endsCut && Trim(pieces[|pieces| - 1]) == "" then TrimAll(pieces[..|pieces| - 1])
      else TrimAll(pieces)
  }

  // Wherever the text has a comma, both counts are at the top level or neither is.
  predicate CutsAlike(s: string, parens: bool, d: Depths, depth: int)
    decreases |s|
  {
    s != "" ==>
      && (s[0] == ',' ==> (d == TOP <==> depth == 0))
      && CutsAlike(s[1..], parens, Nest(d, s[0]), depth + Weight(s[0], parens))
  }

  function Commas(s: string): nat
  {
    if s == "" then 0 else (if s[0] == ',' then 1 else 0) + Commas(s[1..])
  }

  lemma {:induction false} CommasSnoc(s: string, c: char)
    ensures Commas(s + [c]) == Commas(s) + if c == ',' then 1 else 0
  {
    if s == "" {
      assert "" + [c] == [c] && [c][1..] == "";
    } else {
      assert (s + [c])[1..] == s[1..] + [c];
      CommasSnoc(s[1..], c);
    }
  }

  lemma {:induction false} TrimLeftCommas(s: string)
    ensures Commas(TrimLeft(s)) == Commas(s)
  {
    if s != "" && IsSpace(s[0]) { TrimLeftCommas(s[1..]); }
  }

  lemma {:induction false} TrimRightCommas(s: string)
    ensures Commas(TrimRight(s)) == Commas(s)
  {
    if s != "" && IsSpace(s[|s| - 1]) {
      TrimRightCommas(s[..|s| - 1]);
      CommasSnoc(s[..|s| - 1], s[|s| - 1]);
      assert s == s[..|s| - 1] + [s[|s| - 1]];
    }
  }

  lemma TrimCommas(s: string)
    ensures Commas(Trim(s)) == Commas(s)
  {
    TrimLeftCommas(s);
    TrimRightCommas(TrimLeft(s));
  }

  // A piece in progress that holds a comma ends up in the first piece.
  lemma {:induction false} FirstPiece(s: string, d: Depths, cur: string)
    requires Commas(cur) > 0
    ensures var pieces := Split(s, ',', d, cur); pieces != [] && Commas(pieces[0]) >= Commas(cur)
    decreases |s|
  {
    if s != "" && !Cuts(d, s[0], ',') {
      CommasSnoc(cur, s[0]);
      FirstPiece(s[1..], Nest(d, s[0]), cur + [s[0]]);
    }
  }

  lemma {:induction false} FirstTrimmedPiece(s: string, parens: bool, depth: int, cur: string)
    requires Commas(cur) > 0
    ensures var pieces := SplitTrimmed(s, parens, depth, cur); pieces != [] && Commas(pieces[0]) >= Commas(cur)
    decreases |s|
  {
    TrimCommas(cur);
    if s != "" && !(s[0] == ',' && depth == 0) {
      CommasSnoc(cur, s[0]);
      FirstTrimmedPiece(s[1..], parens, depth + Weight(s[0], parens), cur + [s[0]]);
    }
  }

  lemma TrimmedKeepsFirst(pieces: seq<string>, endsCut: bool)
    requires pieces != [] && Commas(pieces[0]) > 0
    ensures Trimmed(pieces, endsCut) != [] && Commas(Trimmed(pieces, endsCut)[0]) == Commas(pieces[0])
  {
    TrimCommas(pieces[0]);
    hide Trim;
    assert Commas("") == 0;
  }

  // Both trimming splitters give splitTopLevel's pieces, trimmed, exactly when the
  // two ways of counting agree at every comma: at the first disagreement one piece
  // ends before the comma and the other holds it.
  lemma {:induction false} SplittersAgreeIff(s: string, parens: bool, d: Depths, depth: int, cur: string)
    ensures SplitTrimmed(s, parens, depth, cur) == Trimmed(Split(s, ',', d, cur), EndsCut(s, ',', d))
            <==> CutsAlike(s, parens, d, depth)
    decreases |s|
  {
    hide Trim;
    if s == "" {
      AtEnd(parens, d, depth, cur);
    } else if s[0] == ',' && (d == TOP || depth == 0) {
      AtComma(s, parens, d, depth, cur);
      if d == TOP && depth == 0 { SplittersAgreeIff(s[1..], parens, TOP, 0, ""); }
    } else {
      SplittersAgreeIff(s[1..], parens, Nest(d, s[0]), depth + Weight(s[0], parens), cur + [s[0]]);
      hide Trimmed;
      assert |s| == 1 ==> s[1..] == "";
    }
  }

  lemma AtEnd(parens: bool, d: Depths, depth: int, cur: string)
    ensures SplitTrimmed("", parens, depth, cur) == Trimmed(Split("", ',', d, cur), EndsCut("", ',', d))
  {
    assert Trim("") == "" by { TrimEmpty(); }
    hide Trim;
    assert TrimAll([]) == [] && [cur][..0] == [];
  }

  // At a comma where somebody cuts: both do, and what follows decides, or they part.
  lemma AtComma(s: string, parens: bool, d: Depths, depth: int, cur: string)
    requires s != "" && s[0] == ',' && (d == TOP || depth == 0)
    ensures var left, right := SplitTrimmed(s, parens, depth, cur), Trimmed(Split(s, ',', d, cur), EndsCut(s, ',', d));
            if d == TOP && depth == 0 then
              left == right <==>
              SplitTrimmed(s[1..], parens, 0, "") == Trimmed(Split(s[1..], ',', TOP, ""), EndsCut(s[1..], ',', TOP))
            else left != right
  {
    var rest := Split(s[1..], ',', TOP, "");
    TrimCommas(cur);
    CommasSnoc(cur, ',');
    NoPieces(s[1..], ',', TOP, "");
    if d == TOP {
      CutAtTop(s, cur);
      SameTails(Trim(cur), SplitTrimmed(s[1..], parens, 0, ""), Trimmed(rest, EndsCut(s[1..], ',', TOP)));
      if depth != 0 { FirstTrimmedPiece(s[1..], parens, depth, cur + [',']); }
    } else {
      FirstPiece(s[1..], d, cur + [',']);
      TrimmedKeepsFirst(Split(s[1..], ',', d, cur + [',']), EndsCut(s, ',', d));
    }
  }

  lemma SameTails(x: string, a: seq<string>, b: seq<string>)
    ensures [x] + a == [x] + b <==> a == b
  {
    assert ([x] + a)[1..] == a && ([x] + b)[1..] == b;
  }

  lemma CutAtTop(s: string, cur: string)
    requires s != "" && s[0] == ','
    ensures Trimmed(Split(s, ',', TOP, cur), EndsCut(s, ',', TOP)) ==
            [Trim(cur)] + Trimmed(Split(s[1..], ',', TOP, ""), EndsCut(s[1..], ',', TOP))
  {
    hide Trim;
    var rest := Split(s[1..], ',', TOP, "");
    NoPieces(s[1..], ',', TOP, "");
    if |s| == 1 { assert s[1..] == ""; }
    TrimmedHead(cur, rest, EndsCut(s, ',', TOP));
  }

  // Plain text is counted alike, so there both cut where splitTopLevel cuts.
  lemma {:induction false} PlainCutsAlike(s: string, parens: bool, d: Depths)
    requires Plain(s, parens, d) && d.brace == 0 && (!parens ==> d.paren == 0)
    ensures CutsAlike(s, parens, d, d.angle + d.paren)
    decreases |s|
  {
    if s != "" { PlainCutsAlike(s[1..], parens, Nest(d, s[0])); }
  }

  lemma SplittersAgree(s: string, parens: bool)
    requires Plain(s, parens, TOP)
    ensures SplitTrimmed(s, parens, 0, "") == Trimmed(Split(s, ',', TOP, ""), EndsCut(s, ',', TOP))
  {
    PlainCutsAlike(s, parens, TOP);
    SplittersAgreeIff(s, parens, TOP, 0, "");
  }

  lemma TrimEmpty()
    ensures Trim("") == ""
  {
  }

  lemma TrimmedHead(x: string, rest: seq<string>, endsCut: bool)
    requires rest == [] ==> endsCut
    ensures Trimmed([x] + rest, endsCut) == [Trim(x)] + Trimmed(rest, endsCut)
  {
    hide Trim;
    TrimAllHead(x, rest);
    if rest != [] {
      assert ([x] + rest)[..|rest|] == [x] + rest[..|rest| - 1];
      TrimAllHead(x, rest[..|rest| - 1]);
    }
  }

  lemma TrimAllHead(x: string, rest: seq<string>)
    ensures TrimAll([x] + rest) == [Trim(x)] + TrimAll(rest)
  {
  }

  // So on plain text, the join of balanced items with a non-blank last one comes
  // back from all three, from two of them trimmed.
  lemma ItemsAgree(items: seq<string>, parens: bool)
    requires items != [] && (forall x | x in items :: Balanced(x, ',', TOP)) && Trim(items[|items| - 1]) != ""
    requires Plain(Join(items, ','), parens, TOP)
    ensures Split(Join(items, ','), ',', TOP, "") == items
    ensures SplitTrimmed(Join(items, ','), parens, 0, "") == TrimAll(items)
  {
    SplitInvertsJoin(items, ',');
    SplittersAgree(Join(items, ','), parens);
  }

  // A stray close bracket makes them differ, and so does a brace.
  lemma SplittersDiffer()
    ensures Split(">,", ',', TOP, "") == [">"] && SplitTrimmed(">,", true, 0, "") == [">,"]
  {
    TrimKeeps(">,");
    assert "" + ['>'] == ">" && ">" + [','] == ">,";
    assert ">,"[1..] == "," && ","[1..] == "";
    hide Trim;
    assert Split(",", ',', TOP, ">") == [">"] + Split("", ',', TOP, "");
    assert Split(">,", ',', TOP, "") == Split(",", ',', TOP, ">");
    assert SplitTrimmed(",", true, -1, ">") == SplitTrimmed("", true, -1, ">,");
    assert SplitTrimmed(">,", true, 0, "") == SplitTrimmed(",", true, -1, ">");
  }

  lemma SplittersDifferOnBraces()
    ensures Split("{,}", ',', TOP, "") == ["{,}"] && SplitTrimmed("{,}", true, 0, "") == ["{", "}"]
  {
    TrimKeeps("{");
    TrimKeeps("}");
    assert "" + ['{'] == "{" && "{" + [','] == "{," && "{," + ['}'] == "{,}" && "" + ['}'] == "}";
    assert "{,}"[1..] == ",}" && ",}"[1..] == "}" && "}"[1..] == "";
    hide Trim;
    assert Split("}", ',', Depths(0, 0, 1), "{,") == Split("", ',', TOP, "{,}");
    assert Split(",}", ',', Depths(0, 0, 1), "{") == Split("}", ',', Depths(0, 0, 1), "{,");
    assert Split("{,}", ',', TOP, "") == Split(",}", ',', Depths(0, 0, 1), "{");
    assert SplitTrimmed("}", true, 0, "") == SplitTrimmed("", true, 0, "}");
    assert SplitTrimmed(",}", true, 0, "{") == [Trim("{")] + SplitTrimmed("}", true, 0, "");
    assert SplitTrimmed("{,}", true, 0, "") == SplitTrimmed(",}", true, 0, "{");
  }

  lemma TrimKeeps(s: string)
    requires s != "" && !IsSpace(s[0]) && !IsSpace(s[|s| - 1])
    ensures Trim(s) == s
  {
  }

  // ---- extractBalancedBody --------------------------------------------------------------------------

  // Open braces less close braces over s[from..to], counting from one open.
  function Open(s: string, from: nat, to: nat): int
    requires from <= to <= |s|
  {
    if from == to then 1
    else Open(s, from, to - 1) + (if s[to - 1] == '{' then 1 else if s[to - 1] == '}' then -1 else 0)
  }

  // Up to the first brace that closes the opening one; None when none does.
  method ExtractBalancedBody(input: string, start: nat) returns (r: Option<string>)
    requires start <= |input|
    ensures r.Some? ==> exists i ::
              start <= i < |input| && r.value == input[start..i] && input[i] == '}' &&
              Open(input, start, i + 1) == 0 && forall j | start <= j <= i :: Open(input, start, j) > 0
    ensures r.None? ==> forall j | start <= j <= |input| :: Open(input, start, j) > 0
  {
    var depth := 1;
    for i := start to |input|
      invariant depth == Open(input, start, i)
      invariant forall j | start <= j <= i :: Open(input, start, j) > 0
    {
      match input[i] {
        case '{' => depth := depth + 1;
        case '}' =>
          depth := depth - 1;
          if depth == 0 { return Some(input[start..i]); }
        case _ =>
      }
    }
    return None;
  }

  // The body itself is balanced: it never closes more than it opens, and closes
  // everything it opens.
  predicate BalancedBody(body: string)
  {
    Open(body, 0, |body|) == 1 && forall j | 0 <= j <= |body| :: Open(body, 0, j) > 0
  }

  lemma {:induction false} OpenInside(input: string, from: nat, body: string, j: nat)
    requires from <= j <= from + |body| <= |input| && input[from..from + |body|] == body
    ensures Open(input, from, j) == Open(body, 0, j - from)
    decreases j
  {
    if j > from {
      assert input[j - 1] == body[j - 1 - from];
      OpenInside(input, from, body, j - 1);
    }
  }

  // Whatever surrounds it, exactly a balanced body is extracted.
  method ExtractsBody(before: string, body: string, after: string) returns (r: Option<string>)
    requires BalancedBody(body)
    ensures r == Some(body)
  {
    var input := before + body + "}" + after;
    r := ExtractBalancedBody(input, |before|);
    Placed(before, body, after);
    EndsAtBody(input, |before|, body);
    ghost var end := |before| + |body|;
    if r.Some? {
      ghost var i :| |before| <= i < |input| && r.value == input[|before|..i] && Open(input, |before|, i + 1) == 0
                     && forall j | |before| <= j <= i :: Open(input, |before|, j) > 0;
      assert i + 1 == end + 1;
    }
  }

  lemma OpenNext(s: string, from: nat, to: nat)
    requires from <= to < |s|
    ensures s[to] == '}' ==> Open(s, from, to + 1) == Open(s, from, to) - 1
  {
  }

  lemma EndsAtBody(input: string, from: nat, body: string)
    requires BalancedBody(body) && from + |body| < |input| && input[from..from + |body|] == body &&
             input[from + |body|] == '}'
    ensures Open(input, from, from + |body| + 1) == 0
    ensures forall j | from <= j <= from + |body| :: Open(input, from, j) > 0
  {
    hide Open;
    OpenNext(input, from, from + |body|);
    OpenInside(input, from, body, from + |body|);
    forall j | from <= j <= from + |body| ensures Open(input, from, j) > 0 {
      OpenInside(input, from, body, j);
      assert Open(body, 0, j - from) > 0;
    }
  }

  lemma Placed(before: string, body: string, after: string)
    ensures var input, end := before + body + "}" + after, |before| + |body|;
            end < |input| && input[|before|..end] == body && input[end] == '}'
  {
  }
}
