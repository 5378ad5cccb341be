/** The text level of tools/arglayout/main.go: positions, lines, and the splice of one pass. */
module Splicing {
  import opened Layout

  datatype Piece = Piece(start: nat, end: nat, text: string)

  /** A bracket group by the offsets of its brackets. */
  datatype Span = Span(open: nat, close: nat, items: seq<Piece>, trailing: bool)

  /** The line a position is on: one more than the newlines before it. */
  function LineAt(source: string, pos: nat): nat {
    if pos == 0 then 1 else LineAt(source, pos - 1) + (if pos <= |source| && source[pos - 1] == '\n' then 1 else 0)
  }

  lemma {:induction false} LinesGrow(source: string, p: nat, q: nat)
    requires p <= q
    ensures LineAt(source, p) <= LineAt(source, q)
    decreases q - p
  {
    if p < q {
      LinesGrow(source, p, q - 1);
    }
  }

  // ---- the check ----

  predicate HeadOnOneLine(source: string, items: seq<Piece>, line: nat, close: nat)
    requires items != []
  {
    && (forall i | 0 <= i < |items| :: LineAt(source, items[i].start) == line)
    && LineAt(source, close) == LineAt(source, items[|items| - 1].end)
  }

  /** Two neighbours meet on a line: an item and what comes before it, or the closing bracket and the last item. */
  predicate Meets(source: string, items: seq<Piece>, previous: nat, close: nat) {
    if items == [] then LineAt(source, close) <= previous
    else LineAt(source, items[0].start) <= previous
         || Meets(source, items[1..], LineAt(source, items[0].end), close)
  }

  predicate SharesALine(source: string, g: Span) {
    && g.items != [] && LineAt(source, g.open) != LineAt(source, g.close)
    && !(g.trailing && HeadOnOneLine(source, g.items, LineAt(source, g.open), g.close))
    && Meets(source, g.items, LineAt(source, g.open), g.close)
  }

  method Check(source: string, g: Span) returns (found: bool)
    ensures found <==> SharesALine(source, g)
  {
    if |g.items| == 0 || LineAt(source, g.open) == LineAt(source, g.close) {
      return false;
    }
    if g.trailing {
      var head := OnOneLine(source, g);
      if head {
        return false;
      }
    }
    var previous := LineAt(source, g.open);
    var n := 0;
    while n < |g.items|
      invariant n <= |g.items|
      invariant Meets(source, g.items[n..], previous, g.close) <==> Meets(source, g.items, LineAt(source, g.open), g.close)
    {
      assert g.items[n..][1..] == g.items[n + 1..];
      if LineAt(source, g.items[n].start) <= previous {
        return true;
      }
      previous := LineAt(source, g.items[n].end);
      n := n + 1;
    }
    return LineAt(source, g.close) <= previous;
  }

  method OnOneLine(source: string, g: Span) returns (head: bool)
    requires g.items != []
    ensures head <==> HeadOnOneLine(source, g.items, LineAt(source, g.open), g.close)
  {
    var n := 0;
    while n < |g.items|
      invariant n <= |g.items|
      invariant forall i | 0 <= i < n :: LineAt(source, g.items[i].start) == LineAt(source, g.open)
    {
      if LineAt(source, g.items[n].start) != LineAt(source, g.open) {
        return false;
      }
      n := n + 1;
    }
    return LineAt(source, g.close) == LineAt(source, g.items[|g.items| - 1].end);
  }

  // ---- where the groups of a file lie ----

  function Pieces(items: Items, at: nat): seq<Piece> {
    match items
    case Close(_, _) => []
    case Item(gap, body, rest) =>
      var end := at + |gap| + |Render(body)|;
      [Piece(at + |gap|, end, Render(body) + (if rest.Close? then Dots(rest.variadic) else ""))] + Pieces(rest, end)
  }

  function SpanOf(trailing: bool, items: Items, at: nat): Span {
    Span(at, at + 1 + |RenderItems(items)|, Pieces(items, at + 1), trailing)
  }

  /** Every group, in the order the brackets open. */
  function Spans(c: Code, at: nat): seq<Span> {
    match c
    case End => []
    case Text(s, rest) => Spans(rest, at + |s|)
    case Group(_, trailing, items, rest) =>
      [SpanOf(trailing, items, at)] + ItemSpans(items, at + 1) + Spans(rest, at + 2 + |RenderItems(items)|)
  }

  function ItemSpans(items: Items, at: nat): seq<Span> {
    match items
    case Close(_, _) => []
    case Item(gap, body, rest) => Spans(body, at + |gap|) + ItemSpans(rest, at + |gap| + |Render(body)|)
  }

  /** The text of a stretch, character by character. */
  function Slice(source: string, from: nat, to: nat): string
    decreases if from < to then to - from else 0
  {
    if from < to <= |source| then [source[from]] + Slice(source, from + 1, to) else ""
  }

  lemma {:induction false} SliceIsSlice(source: string, from: nat, to: nat)
    requires from <= to <= |source|
    ensures Slice(source, from, to) == source[from..to]
    decreases if from < to then to - from else 0
  {
    if from < to {
      SliceIsSlice(source, from + 1, to);
      assert source[from..to] == [source[from]] + source[from + 1..to];
    }
  }

  /** The text lies in the source at an offset. */
  predicate Sits(source: string, at: nat, s: string) {
    at + |s| <= |source| && forall i | 0 <= i < |s| :: source[at + i] == s[i]
  }

  lemma SitsAsSlice(source: string, at: nat, s: string)
    requires Sits(source, at, s)
    ensures Slice(source, at, at + |s|) == source[at..at + |s|] == s
  {
    SliceIsSlice(source, at, at + |s|);
  }

  lemma SitsInParts(source: string, at: nat, a: string, b: string)
    requires Sits(source, at, a + b)
    ensures Sits(source, at, a) && Sits(source, at + |a|, b)
  {
    assert forall i | 0 <= i < |a| :: (a + b)[i] == a[i];
    forall i | 0 <= i < |b| ensures source[at + |a| + i] == b[i] {
      assert (a + b)[|a| + i] == b[i];
      assert source[at + (|a| + i)] == (a + b)[|a| + i];
    }
  }

  lemma GroupSits(source: string, at: nat, b: Bracket, items: Items, rest: string)
    requires Sits(source, at, [Opener(b)] + RenderItems(items) + [Closer(b)] + rest)
    ensures Sits(source, at, [Opener(b)])
    ensures Sits(source, at + 1, RenderItems(items))
    ensures Sits(source, at + 1 + |RenderItems(items)|, [Closer(b)])
    ensures Sits(source, at + 2 + |RenderItems(items)|, rest)
  {
    FourSit(source, at, [Opener(b)], RenderItems(items), [Closer(b)], rest);
  }

  lemma FourSit(source: string, at: nat, a: string, b: string, c: string, d: string)
    requires Sits(source, at, a + b + c + d)
    ensures Sits(source, at, a) && Sits(source, at + |a|, b)
    ensures Sits(source, at + |a| + |b|, c) && Sits(source, at + |a| + |b| + |c|, d)
  {
    SitsInParts(source, at, a + b + c, d);
    SitsInParts(source, at, a + b, c);
    SitsInParts(source, at, a, b);
  }

  lemma ItemSits(source: string, at: nat, gap: string, body: Code, rest: Items)
    requires Sits(source, at, RenderItems(Item(gap, body, rest)))
    ensures Sits(source, at, gap) && Sits(source, at + |gap|, Render(body))
    ensures Sits(source, at + |gap| + |Render(body)|, RenderItems(rest))
  {
    SitsInParts(source, at, gap + Render(body), RenderItems(rest));
    SitsInParts(source, at, gap, Render(body));
  }

  /** A text keeps to the line it starts on exactly when there is no line break in it. */
  lemma LineAfter(source: string, at: nat, s: string)
    requires Sits(source, at, s)
    ensures LineAt(source, at + |s|) == LineAt(source, at) <==> !Breaks(s)
    ensures LineAt(source, at + |s|) >= LineAt(source, at)
  {
    SitsAsSlice(source, at, s);
    LinesGrow(source, at, at + |s|);
    SameLine(source, at, at + |s|);
  }

  lemma {:induction false} SameLine(source: string, p: nat, q: nat)
    requires p <= q <= |source|
    ensures LineAt(source, p) == LineAt(source, q) <==> !Breaks(source[p..q])
    decreases q - p
  {
    if p < q {
      SameLine(source, p, q - 1);
      LinesGrow(source, p, q - 1);
      assert source[p..q] == source[p..q - 1] + [source[q - 1]];
    }
  }

  /** Where the first item starts and ends, in lines. */
  lemma FirstLines(source: string, at: nat, items: Items)
    requires items.Item? && Sits(source, at, RenderItems(items))
    ensures var start, end := at + |items.gap|, at + |items.gap| + |Render(items.body)|;
            && end <= |source| && Sits(source, end, RenderItems(items.rest))
            && LineAt(source, at) <= LineAt(source, start) <= LineAt(source, end)
            && (LineAt(source, start) == LineAt(source, at) <==> !Breaks(items.gap))
            && (LineAt(source, end) == LineAt(source, start) <==> !Breaks(Render(items.body)))
  {
    ItemSits(source, at, items.gap, items.body, items.rest);
    LineAfter(source, at, items.gap);
    LineAfter(source, at + |items.gap|, Render(items.body));
  }

  lemma LastLine(source: string, at: nat, variadic: bool, gap: string)
    requires Sits(source, at, RenderItems(Close(variadic, gap)))
    ensures var close := at + |RenderItems(Close(variadic, gap))|;
            LineAt(source, at) <= LineAt(source, close) && (LineAt(source, close) == LineAt(source, at) <==> !Breaks(gap))
  {
    LineAfter(source, at, Dots(variadic) + gap);
    assert !Breaks(Dots(variadic));
  }

  lemma {:induction false} MeetingIsFlat(source: string, at: nat, items: Items)
    requires Sits(source, at, RenderItems(items))
    ensures Meets(source, Pieces(items, at), LineAt(source, at), at + |RenderItems(items)|) <==> FlatGap(items)
    decreases items
  {
    hide LineAt, Sits, Breaks;
    match items
    case Close(variadic, gap) =>
      LastLine(source, at, variadic, gap);
    case Item(gap, body, rest) =>
      var end, close := at + |gap| + |Render(body)|, at + |RenderItems(items)|;
      FirstLines(source, at, items);
      assert Pieces(items, at)[1..] == Pieces(rest, end);
      assert Meets(source, Pieces(rest, end), LineAt(source, end), close) <==> FlatGap(rest) by {
        MeetingIsFlat(source, end, rest);
      }
  }

  lemma PiecesOfTwo(at: nat, gap: string, body: Code, rest: Items)
    requires rest.Item?
    ensures var items, end := Item(gap, body, rest), at + |gap| + |Render(body)|;
            var pieces := Pieces(items, at);
            && |pieces| > 1 && pieces[1..] == Pieces(rest, end) && at + |RenderItems(items)| == end + |RenderItems(rest)|
            && pieces[0].start == at + |gap| && pieces[1].start == end + |rest.gap|
  {
    var tail := Pieces(rest, at + |gap| + |Render(body)|);
    assert tail != [] && Pieces(Item(gap, body, rest), at)[1..] == tail;
  }

  /** Lines count up along the items, so all start where the first does only if nothing before the last breaks. */
  lemma HeadThenRest(source: string, pieces: seq<Piece>, line: nat, end: nat, close: nat)
    requires |pieces| > 1
    requires line <= LineAt(source, pieces[0].start) <= end <= LineAt(source, pieces[1].start)
    ensures HeadOnOneLine(source, pieces, line, close) <==>
            line == LineAt(source, pieces[0].start) == end && HeadOnOneLine(source, pieces[1..], end, close)
  {
    assert forall i | 0 <= i < |pieces| - 1 :: pieces[1..][i] == pieces[i + 1];
    assert forall i | 1 <= i < |pieces| :: pieces[i] == pieces[1..][i - 1];
    if HeadOnOneLine(source, pieces, line, close) {
      assert LineAt(source, pieces[1].start) == line;
    }
  }

  lemma HeadOfOne(source: string, at: nat, gap: string, body: Code, rest: Items)
    requires rest.Close? && Sits(source, at, RenderItems(Item(gap, body, rest)))
    ensures var items := Item(gap, body, rest);
            HeadOnOneLine(source, Pieces(items, at), LineAt(source, at), at + |RenderItems(items)|) <==> SameLineHead(items)
  {
    hide LineAt, Sits, HeadOnOneLine, Breaks;
    var items, end := Item(gap, body, rest), at + |gap| + |Render(body)|;
    FirstLines(source, at, items);
    LastLine(source, end, rest.variadic, rest.gap);
    var piece := Pieces(items, at)[0];
    assert Pieces(items, at) == [piece] && piece.start == at + |gap| && piece.end == end;
    OneOnOneLine(source, piece, LineAt(source, at), end + |RenderItems(rest)|);
  }

  lemma OneOnOneLine(source: string, piece: Piece, line: nat, close: nat)
    ensures HeadOnOneLine(source, [piece], line, close) <==>
            LineAt(source, piece.start) == line && LineAt(source, close) == LineAt(source, piece.end)
  {
    hide LineAt;
    assert [piece][0] == piece;
  }

  lemma {:induction false} HeadIsOnOneLine(source: string, at: nat, items: Items)
    requires items.Item? && Sits(source, at, RenderItems(items))
    ensures HeadOnOneLine(source, Pieces(items, at), LineAt(source, at), at + |RenderItems(items)|) <==> SameLineHead(items)
    decreases items
  {
    hide LineAt, HeadOnOneLine, Sits;
    var Item(gap, body, rest) := items;
    var pieces, end, close := Pieces(items, at), at + |gap| + |Render(body)|, at + |RenderItems(items)|;
    FirstLines(source, at, items);
    if rest.Close? {
      HeadOfOne(source, at, gap, body, rest);
    } else {
      PiecesOfTwo(at, gap, body, rest);
      HeadIsOnOneLine(source, end, rest);
      var line, tail := LineAt(source, end), Pieces(rest, end);
      assert HeadOnOneLine(source, tail, line, close) <==> SameLineHead(rest);
      assert LineAt(source, pieces[1].start) >= line by {
        LinesGrow(source, end, pieces[1].start);
      }
      HeadThenRest(source, pieces, LineAt(source, at), line, close);
    }
  }

  /** The check by line numbers decides exactly the rule. */
  lemma TheCheckDecidesTheRule(source: string, at: nat, b: Bracket, trailing: bool, items: Items, rest: string)
    requires Sits(source, at, [Opener(b)] + RenderItems(items) + [Closer(b)] + rest)
    ensures SharesALine(source, SpanOf(trailing, items, at)) <==> Violates(trailing, items)
  {
    hide LineAt;
    GroupSits(source, at, b, items, rest);
    LineAfter(source, at, [Opener(b)]);
    LineAfter(source, at + 1, RenderItems(items));
    MeetingIsFlat(source, at + 1, items);
    if items.Item? {
      HeadIsOnOneLine(source, at + 1, items);
    }
  }
}
