/** The fix loop of tools/arglayout/main.go: violations found, outermost kept, text spliced, until none is left. */
module Arglayout {
  import opened Options
  import opened Texts
  import opened Layout
  import opened Splicing
  import opened Passing

  // ---- finding ----

  method Violations(source: string, groups: seq<Span>) returns (found: seq<Span>)
    ensures forall g :: g in found <==> g in groups && SharesALine(source, g)
  {
    found := [];
    var n := 0;
    while n < |groups|
      invariant n <= |groups|
      invariant forall g :: g in found <==> g in groups[..n] && SharesALine(source, g)
    {
      var bad := Check(source, groups[n]);
      assert groups[..n + 1] == groups[..n] + [groups[n]];
      if bad {
        found := found + [groups[n]];
      }
      n := n + 1;
    }
    assert groups[..n] == groups;
  }

  ghost predicate Found(source: string, groups: seq<Span>, bad: seq<Span>) {
    && (forall g | g in bad :: g in groups && SharesALine(source, g))
    && (forall g | g in groups && SharesALine(source, g) :: g in bad)
  }

  lemma FoundAlike(source: string, a: seq<Span>, b: seq<Span>, a': seq<Span>, b': seq<Span>)
    requires Found(source, a, a') && a == b && a' == b'
    ensures Found(source, b, b')
  {
  }

  lemma FoundTogether(source: string, a: seq<Span>, b: seq<Span>, a': seq<Span>, b': seq<Span>)
    requires Found(source, a, a') && Found(source, b, b')
    ensures Found(source, a + b, a' + b')
  {
  }

  /** What the line numbers find is what the rule says. */
  lemma {:induction false} WhatIsFound(source: string, at: nat, c: Code)
    requires Sits(source, at, Render(c))
    ensures Found(source, Spans(c, at), Bad(c, at))
    decreases c, 1
  {
    hide Found, Sits, SpanOf, Violates;
    match c
    case End => NothingFound(source);
    case Text(s, rest) =>
      SitsInParts(source, at, s, Render(rest));
      WhatIsFound(source, at + |s|, rest);
    case Group(b, trailing, items, rest) =>
      var end := at + 2 + |RenderItems(items)|;
      WhatIsFoundInGroup(source, at, b, trailing, items, rest);
      FoundAlike(source, [SpanOf(trailing, items, at)] + ItemSpans(items, at + 1) + Spans(rest, end), Spans(c, at),
                 Own(trailing, items, at) + BadItems(items, at + 1) + Bad(rest, end), Bad(c, at));
  }

  lemma NothingFound(source: string)
    ensures Found(source, [], [])
  {
  }

  function Own(trailing: bool, items: Items, at: nat): seq<Span> {
    if Violates(trailing, items) then [SpanOf(trailing, items, at)] else []
  }

  lemma GroupIsFound(source: string, at: nat, b: Bracket, trailing: bool, items: Items, rest: string)
    requires Sits(source, at, [Opener(b)] + RenderItems(items) + [Closer(b)] + rest)
    ensures Found(source, [SpanOf(trailing, items, at)], Own(trailing, items, at))
  {
    TheCheckDecidesTheRule(source, at, b, trailing, items, rest);
  }

  lemma {:induction false} WhatIsFoundInGroup(source: string, at: nat, b: Bracket, trailing: bool, items: Items, rest: Code)
    requires Sits(source, at, [Opener(b)] + RenderItems(items) + [Closer(b)] + Render(rest))
    ensures var end := at + 2 + |RenderItems(items)|;
            Found(source, [SpanOf(trailing, items, at)] + ItemSpans(items, at + 1) + Spans(rest, end),
                  Own(trailing, items, at) + BadItems(items, at + 1) + Bad(rest, end))
    decreases Group(b, trailing, items, rest), 0
  {
    var g, end := SpanOf(trailing, items, at), at + 2 + |RenderItems(items)|;
    var own, inner, badInner := Own(trailing, items, at), ItemSpans(items, at + 1), BadItems(items, at + 1);
    assert Found(source, [g] + inner, own + badInner) by {
      GroupIsFound(source, at, b, trailing, items, Render(rest));
      GroupSits(source, at, b, items, Render(rest));
      WhatIsFoundInItems(source, at + 1, items);
      FoundTogether(source, [g], inner, own, badInner);
    }
    assert Found(source, Spans(rest, end), Bad(rest, end)) by {
      GroupSits(source, at, b, items, Render(rest));
      WhatIsFound(source, end, rest);
    }
    FoundTogether(source, [g] + inner, Spans(rest, end), own + badInner, Bad(rest, end));
  }

  lemma {:induction false} WhatIsFoundInItems(source: string, at: nat, items: Items)
    requires Sits(source, at, RenderItems(items))
    ensures Found(source, ItemSpans(items, at), BadItems(items, at))
    decreases items
  {
    if items.Item? {
      var start, end := at + |items.gap|, at + |items.gap| + |Render(items.body)|;
      ItemSits(source, at, items.gap, items.body, items.rest);
      WhatIsFound(source, start, items.body);
      WhatIsFoundInItems(source, end, items.rest);
      FoundTogether(
        source, Spans(items.body, start), ItemSpans(items.rest, end), Bad(items.body, start), BadItems(items.rest, end));
    }
  }

  // ---- splicing ----

  function Entries(items: seq<Piece>): string {
    if items == [] then "" else TrimSpace(items[0].text) + ",\n" + Entries(items[1..])
  }

  /** Groups one after the other inside a stretch of the source. */
  predicate InTurn(from: nat, groups: seq<Span>, to: nat)
    decreases |groups|
  {
    if groups == [] then from <= to
    else from <= groups[0].open < groups[0].close && InTurn(groups[0].close, groups[1..], to)
  }

  lemma {:induction false} InTurnWithin(from: nat, groups: seq<Span>, to: nat)
    requires InTurn(from, groups, to)
    ensures from <= to && (groups != [] ==> groups[0].close <= to)
    decreases |groups|
  {
    if groups != [] {
      InTurnWithin(groups[0].close, groups[1..], to);
    }
  }

  lemma SliceInParts(source: string, from: nat, mid: nat, to: nat)
    requires from <= mid <= to <= |source|
    ensures Slice(source, from, to) == Slice(source, from, mid) + Slice(source, mid, to)
  {
    SliceIsSlice(source, from, mid);
    SliceIsSlice(source, mid, to);
    SliceIsSlice(source, from, to);
    assert source[from..to] == source[from..mid] + source[mid..to];
  }

  /** A stretch of the source with every group's items one to a line. */
  function Spliced(source: string, from: nat, groups: seq<Span>, to: nat): string
    decreases |groups|
  {
    if groups == [] then Slice(source, from, to)
    else Head(source, from, groups[0]) + Spliced(source, groups[0].close, groups[1..], to)
  }

  function Head(source: string, from: nat, g: Span): string {
    Slice(source, from, g.open + 1) + "\n" + Entries(g.items)
  }

  method WriteItems(out: string, items: seq<Piece>) returns (written: string)
    ensures written == out + Entries(items)
  {
    written := out;
    var i := 0;
    while i < |items|
      invariant i <= |items|
      invariant written + Entries(items[i..]) == out + Entries(items)
    {
      assert items[i..][1..] == items[i + 1..];
      assert written + (TrimSpace(items[i].text) + ",\n" + Entries(items[i + 1..]))
          == written + TrimSpace(items[i].text) + ",\n" + Entries(items[i + 1..]);
      written := written + TrimSpace(items[i].text) + ",\n";
      i := i + 1;
    }
  }

  function CursorAt(groups: seq<Span>, n: nat): nat
    requires n <= |groups|
  {
    if n == 0 then 0 else groups[n - 1].close
  }

  /** What has been written once the first groups are done. */
  function Written(source: string, groups: seq<Span>, n: nat): string
    requires n <= |groups|
  {
    if n == 0 then ""
    else
      Written(source, groups, n - 1) + Slice(source, CursorAt(groups, n - 1), groups[n - 1].open + 1)
      + "\n" + Entries(groups[n - 1].items)
  }

  lemma {:induction false} InTurnAt(groups: seq<Span>, n: nat, to: nat)
    requires n <= |groups| && InTurn(0, groups, to)
    ensures CursorAt(groups, n) <= to && InTurn(CursorAt(groups, n), groups[n..], to)
    ensures n < |groups| ==> CursorAt(groups, n) <= groups[n].open < groups[n].close <= to
  {
    if n == 0 {
      assert groups[0..] == groups;
    } else {
      InTurnAt(groups, n - 1, to);
      assert groups[n - 1..][1..] == groups[n..] && groups[n - 1..][0] == groups[n - 1];
    }
    InTurnWithin(CursorAt(groups, n), groups[n..], to);
  }

  lemma NextSpliced(source: string, cursor: nat, groups: seq<Span>, n: nat)
    requires n < |groups|
    ensures Spliced(source, cursor, groups[n..], |source|)
            == Head(source, cursor, groups[n]) + Spliced(source, groups[n].close, groups[n + 1..], |source|)
  {
    assert groups[n..][0] == groups[n] && groups[n..][1..] == groups[n + 1..];
  }

  lemma NextWritten(source: string, groups: seq<Span>, n: nat)
    requires n < |groups|
    ensures Written(source, groups, n + 1) == Written(source, groups, n) + Head(source, CursorAt(groups, n), groups[n])
  {
    var before, between := Written(source, groups, n), Slice(source, CursorAt(groups, n), groups[n].open + 1);
    assert before + between + "\n" + Entries(groups[n].items) == before + (between + "\n" + Entries(groups[n].items));
  }

  lemma {:induction false} WrittenIsSpliced(source: string, groups: seq<Span>, n: nat)
    requires n <= |groups|
    ensures Written(source, groups, n) + Spliced(source, CursorAt(groups, n), groups[n..], |source|)
            == Spliced(source, 0, groups, |source|)
  {
    hide Head, Slice, Entries;
    if n == 0 {
      assert groups[0..] == groups;
    } else {
      var g, cursor := groups[n - 1], CursorAt(groups, n - 1);
      var before, head := Written(source, groups, n - 1), Head(source, cursor, g);
      var rest := Spliced(source, g.close, groups[n..], |source|);
      assert before + (head + rest) == Spliced(source, 0, groups, |source|) by {
        WrittenIsSpliced(source, groups, n - 1);
        NextSpliced(source, cursor, groups, n - 1);
      }
      assert Written(source, groups, n) == before + head by {
        NextWritten(source, groups, n - 1);
      }
      Grouped(before, head, rest);
    }
  }

  method Copy(source: string, from: nat, to: nat) returns (text: string)
    requires from <= to <= |source|
    ensures text == Slice(source, from, to)
  {
    SliceIsSlice(source, from, to);
    text := source[from..to];
  }

  method WriteGroup(source: string, cursor: nat, g: Span, out: string) returns (written: string)
    requires cursor <= g.open < |source|
    ensures written == out + Head(source, cursor, g)
  {
    var between := Copy(source, cursor, g.open + 1);
    written := WriteItems(out + between + "\n", g.items);
    Interleaved(out, between, "\n", Entries(g.items));
  }

  method Rewrite(source: string, groups: seq<Span>) returns (out: string)
    requires InTurn(0, groups, |source|)
    ensures out == Spliced(source, 0, groups, |source|)
  {
    hide Slice, Head, InTurn;
    out := "";
    var cursor, n := 0, 0;
    while n < |groups|
      invariant n <= |groups| && cursor == CursorAt(groups, n) && out == Written(source, groups, n)
    {
      InTurnAt(groups, n, |source|);
      NextWritten(source, groups, n);
      out := WriteGroup(source, cursor, groups[n], out);
      cursor := groups[n].close;
      n := n + 1;
    }
    InTurnAt(groups, n, |source|);
    WrittenIsSpliced(source, groups, n);
    assert groups[n..] == [];
    var rest := Copy(source, cursor, |source|);
    out := out + rest;
  }

  /** Neighbouring stretches are spliced each on its own. */
  lemma {:induction false} SplicedInParts(source: string, from: nat, a: seq<Span>, mid: nat, b: seq<Span>, to: nat)
    requires InTurn(from, a, mid) && InTurn(mid, b, to) && to <= |source|
    ensures Spliced(source, from, a + b, to) == Spliced(source, from, a, mid) + Spliced(source, mid, b, to)
    ensures InTurn(from, a + b, to)
    decreases |a|
  {
    if a == [] {
      assert a + b == b;
      SplicedFromBefore(source, from, mid, b, to);
    } else {
      assert (a + b)[1..] == a[1..] + b && (a + b)[0] == a[0];
      SplicedInParts(source, a[0].close, a[1..], mid, b, to);
      Grouped(Head(source, from, a[0]), Spliced(source, a[0].close, a[1..], mid), Spliced(source, mid, b, to));
    }
  }

  lemma Grouped(a: string, b: string, c: string)
    ensures a + (b + c) == a + b + c
  {
  }

  lemma SplicedFromBefore(source: string, from: nat, mid: nat, b: seq<Span>, to: nat)
    requires from <= mid && InTurn(mid, b, to) && to <= |source|
    ensures Spliced(source, from, b, to) == Slice(source, from, mid) + Spliced(source, mid, b, to)
    ensures InTurn(from, b, to)
  {
    InTurnWithin(mid, b, to);
    if b == [] {
      SliceInParts(source, from, mid, to);
    } else {
      var open, entries := b[0].open + 1, Entries(b[0].items);
      var last := Spliced(source, b[0].close, b[1..], to);
      assert Head(source, from, b[0]) == Slice(source, from, mid) + Slice(source, mid, open) + "\n" + entries by {
        InTurnWithin(b[0].close, b[1..], to);
        SliceInParts(source, from, mid, open);
      }
      Joined(Slice(source, from, mid), Slice(source, mid, open), "\n", entries, last);
    }
  }

  lemma Joined(a: string, b: string, c: string, d: string, e: string)
    ensures a + b + c + d + e == a + (b + c + d + e)
  {
  }

  // ---- a spliced file is the file a pass makes ----

  /** Items begin and end with a token. */
  predicate Tidy(c: Code) {
    match c
    case End => true
    case Text(_, rest) => Tidy(rest)
    case Group(_, _, items, rest) => TidyItems(items) && Tidy(rest)
  }

  predicate TidyItems(items: Items) {
    match items
    case Close(_, _) => true
    case Item(_, body, rest) => Tight(Render(body)) && Tidy(body) && TidyItems(rest)
  }

  lemma Interleaved(a: string, b: string, c: string, d: string)
    ensures a + b + (c + d) == a + (b + c + d)
  {
  }

  lemma {:induction false} EntriesAreSpread(items: Items, at: nat, gap: string)
    requires items.Item? && TidyItems(items)
    ensures RenderItems(Spread(items, gap)) == gap + Entries(Pieces(items, at))
    decreases items
  {
    var end := at + |items.gap| + |Render(items.body)|;
    var pieces, rest := Pieces(items, at), Pieces(items.rest, end);
    assert pieces == [pieces[0]] + rest && pieces[1..] == rest;
    var text := Render(items.body);
    if items.rest.Close? {
      var dots := Dots(items.rest.variadic);
      assert RenderItems(Spread(items, gap)) == gap + text + (dots + ",\n");
      assert Entries(pieces) == text + dots + ",\n" by {
        TrimmingTight(text + dots);
        assert Entries(rest) == "" && text + dots + ",\n" + "" == text + dots + ",\n";
      }
      Interleaved(gap, text, dots, ",\n");
    } else {
      var others := Entries(rest);
      assert RenderItems(Spread(items, gap)) == gap + text + (",\n" + others) by {
        EntriesAreSpread(items.rest, end, ",\n");
      }
      assert Entries(pieces) == text + ",\n" + others by {
        TrimmingTight(text);
        assert text + "" == text;
      }
      Interleaved(gap, text, ",\n", others);
    }
  }

  /** What a stretch is spliced to, if its groups fit in it. */
  function Patched(source: string, from: nat, groups: seq<Span>, to: nat): Option<string> {
    if InTurn(from, groups, to) && to <= |source| then Some(Spliced(source, from, groups, to)) else None
  }

  lemma SplicesItself(source: string, at: nat, s: string)
    requires Sits(source, at, s)
    ensures Patched(source, at, [], at + |s|) == Some(s)
  {
    SitsAsSlice(source, at, s);
  }

  lemma SplicesBoth(source: string, from: nat, a: seq<Span>, mid: nat, x: string, b: seq<Span>, to: nat, y: string)
    requires Patched(source, from, a, mid) == Some(x) && Patched(source, mid, b, to) == Some(y)
    ensures Patched(source, from, a + b, to) == Some(x + y)
  {
    SplicedInParts(source, from, a, mid, b, to);
  }

  lemma SplicesInto(
      source: string, from: nat, a: seq<Span>, mid: nat, x: string, b: seq<Span>, y: string,
      groups: seq<Span>, to: nat, text: string)
    requires Patched(source, from, a, mid) == Some(x) && Patched(source, mid, b, to) == Some(y)
    requires groups == a + b && text == x + y
    ensures Patched(source, from, groups, to) == Some(text)
  {
    hide Patched;
    SplicesBoth(source, from, a, mid, x, b, to, y);
  }

  lemma SplicesAfter(source: string, at: nat, s: string, groups: seq<Span>, to: nat, text: string)
    requires Sits(source, at, s) && Patched(source, at + |s|, groups, to) == Some(text)
    ensures Patched(source, at, groups, to) == Some(s + text)
  {
    SitsAsSlice(source, at, s);
    SplicedFromBefore(source, at, at + |s|, groups, to);
  }

  lemma SplicesUpTo(source: string, from: nat, groups: seq<Span>, at: nat, text: string, s: string)
    requires Sits(source, at, s) && Patched(source, from, groups, at) == Some(text)
    ensures Patched(source, from, groups, at + |s|) == Some(text + s)
  {
    assert groups + [] == groups;
    SitsAsSlice(source, at, s);
    SplicedInParts(source, from, groups, at, [], at + |s|);
  }

  lemma OneGroup(source: string, from: nat, g: Span, to: nat)
    requires from <= g.open < g.close <= to <= |source|
    ensures Patched(source, from, [g], to) == Some(Head(source, from, g) + Slice(source, g.close, to))
  {
    var none: seq<Span> := [];
    assert [g][1..] == none && InTurn(g.close, none, to) && InTurn(from, [g], to);
    assert Spliced(source, from, [g], to) == Head(source, from, g) + Spliced(source, g.close, none, to);
  }

  /** A violating group on its own: its items one to a line between its brackets. */
  lemma SplicesGroup(source: string, at: nat, b: Bracket, trailing: bool, items: Items)
    requires items.Item? && TidyItems(items) && Sits(source, at, [Opener(b)])
    requires Sits(source, at + 1 + |RenderItems(items)|, [Closer(b)])
    ensures Patched(source, at, [SpanOf(trailing, items, at)], at + 2 + |RenderItems(items)|)
            == Some([Opener(b)] + RenderItems(Spread(items, "\n")) + [Closer(b)])
  {
    hide Patched;
    var g, close := SpanOf(trailing, items, at), at + 1 + |RenderItems(items)|;
    OneGroup(source, at, g, close + 1);
    assert Slice(source, close, close + 1) == [Closer(b)] by {
      SitsAsSlice(source, close, [Closer(b)]);
    }
    assert Head(source, at, g) == [Opener(b)] + RenderItems(Spread(items, "\n")) by {
      SitsAsSlice(source, at, [Opener(b)]);
      SpreadHead(source, at, [Opener(b)], g, items);
    }
  }

  lemma SpreadHead(source: string, at: nat, open: string, g: Span, items: Items)
    requires items.Item? && TidyItems(items) && g.items == Pieces(items, at + 1)
    requires Slice(source, at, g.open + 1) == open
    ensures Head(source, at, g) == open + RenderItems(Spread(items, "\n"))
  {
    EntriesAreSpread(items, at + 1, "\n");
    Grouped(open, "\n", Entries(g.items));
  }

  /** Splicing the outermost violations of a file, wherever it lies in the source, gives what a pass makes of it. */
  lemma {:induction false} SplicedCode(source: string, at: nat, c: Code)
    requires Sits(source, at, Render(c)) && Tidy(c)
    ensures Patched(source, at, Outer(c, at), at + |Render(c)|) == Some(Render(Fixed(c)))
    decreases c, 2
  {
    hide Patched;
    match c
    case End => SplicesItself(source, at, "");
    case Text(s, rest) =>
      SitsInParts(source, at, s, Render(rest));
      SplicedCode(source, at + |s|, rest);
      TextSplices(source, at, s, rest);
    case Group(b, trailing, items, rest) => SplicedGroupCode(source, at, b, trailing, items, rest);
  }

  lemma {:induction false} SplicedGroupCode(source: string, at: nat, b: Bracket, trailing: bool, items: Items, rest: Code)
    requires var c := Group(b, trailing, items, rest); Sits(source, at, Render(c)) && Tidy(c)
    ensures var c := Group(b, trailing, items, rest);
            Patched(source, at, Outer(c, at), at + |Render(c)|) == Some(Render(Fixed(c)))
    decreases Group(b, trailing, items, rest), 1
  {
    hide Patched;
    var end := at + 2 + |RenderItems(items)|;
    assert Patched(source, end, Outer(rest, end), end + |Render(rest)|) == Some(Render(Fixed(rest))) by {
      GroupSits(source, at, b, items, Render(rest));
      SplicedCode(source, end, rest);
    }
    SplicedHead(source, at, Group(b, trailing, items, rest));
    GroupSplices(source, at, b, trailing, items, rest);
  }

  lemma TextSplices(source: string, at: nat, s: string, rest: Code)
    requires Sits(source, at, s)
    requires Patched(source, at + |s|, Outer(rest, at + |s|), at + |s| + |Render(rest)|) == Some(Render(Fixed(rest)))
    ensures var c := Text(s, rest);
            Patched(source, at, Outer(c, at), at + |Render(c)|) == Some(Render(Fixed(c)))
  {
    hide Patched;
    var c := Text(s, rest);
    TextInParts(s, rest, at);
    assert Patched(source, at + |s|, Outer(c, at), at + |Render(c)|) == Some(Render(Fixed(rest)));
    SplicesAfter(source, at, s, Outer(c, at), at + |Render(c)|, Render(Fixed(rest)));
  }

  lemma TextInParts(s: string, rest: Code, at: nat)
    ensures var c := Text(s, rest);
            Outer(c, at) == Outer(rest, at + |s|) && at + |Render(c)| == at + |s| + |Render(rest)|
    ensures Render(Fixed(Text(s, rest))) == s + Render(Fixed(rest))
  {
  }

  lemma GroupSplices(source: string, at: nat, b: Bracket, trailing: bool, items: Items, rest: Code)
    requires var end, c := at + 2 + |RenderItems(items)|, Group(b, trailing, items, rest);
             && Patched(source, at, OuterHead(c, at), end) == Some(FixedHead(c))
             && Patched(source, end, Outer(rest, end), end + |Render(rest)|) == Some(Render(Fixed(rest)))
    ensures var c := Group(b, trailing, items, rest);
            Patched(source, at, Outer(c, at), at + |Render(c)|) == Some(Render(Fixed(c)))
  {
    hide Patched;
    var end, c := at + 2 + |RenderItems(items)|, Group(b, trailing, items, rest);
    GroupInParts(c, at);
    SplicesInto(source, at, OuterHead(c, at), end, FixedHead(c), Outer(rest, end), Render(Fixed(rest)),
                Outer(c, at), at + |Render(c)|, Render(Fixed(c)));
  }

  function FixedHead(c: Code): string
    requires c.Group?
  {
    [Opener(c.bracket)] + RenderItems(Fixed(c).items) + [Closer(c.bracket)]
  }

  function OuterHead(c: Code, at: nat): seq<Span>
    requires c.Group?
  {
    if Violates(c.trailing, c.items) then [SpanOf(c.trailing, c.items, at)] else OuterItems(c.items, at + 1)
  }

  lemma GroupInParts(c: Code, at: nat)
    requires c.Group?
    ensures var end := at + 2 + |RenderItems(c.items)|;
            Outer(c, at) == OuterHead(c, at) + Outer(c.rest, end) && at + |Render(c)| == end + |Render(c.rest)|
    ensures Render(Fixed(c)) == FixedHead(c) + Render(Fixed(c.rest))
  {
  }

  lemma {:induction false} SplicedHead(source: string, at: nat, c: Code)
    requires c.Group? && Sits(source, at, Render(c)) && Tidy(c)
    ensures Patched(source, at, OuterHead(c, at), at + 2 + |RenderItems(c.items)|) == Some(FixedHead(c))
    decreases c, 0
  {
    var Group(b, trailing, items, rest) := c;
    GroupSits(source, at, b, items, Render(rest));
    if Violates(trailing, items) {
      SplicesGroup(source, at, b, trailing, items);
    } else {
      SplicesKept(source, at, b, items);
    }
    FixedOfGroup(c);
  }

  lemma FixedOfGroup(c: Code)
    requires c.Group?
    ensures FixedHead(c) == [Opener(c.bracket)]
            + RenderItems(if Violates(c.trailing, c.items) then Spread(c.items, "\n") else FixedItems(c.items))
            + [Closer(c.bracket)]
  {
    hide Patched;
  }

  lemma {:induction false} SplicesKept(source: string, at: nat, b: Bracket, items: Items)
    requires Sits(source, at, [Opener(b)]) && Sits(source, at + 1 + |RenderItems(items)|, [Closer(b)])
    requires Sits(source, at + 1, RenderItems(items)) && TidyItems(items)
    ensures Patched(source, at, OuterItems(items, at + 1), at + 2 + |RenderItems(items)|)
            == Some([Opener(b)] + RenderItems(FixedItems(items)) + [Closer(b)])
    decreases items, 3
  {
    SplicedItems(source, at + 1, items);
    SplicesAround(source, at, b, items);
  }

  lemma SplicesAround(source: string, at: nat, b: Bracket, items: Items)
    requires Sits(source, at, [Opener(b)]) && Sits(source, at + 1 + |RenderItems(items)|, [Closer(b)])
    requires Patched(source, at + 1, OuterItems(items, at + 1), at + 1 + |RenderItems(items)|)
             == Some(RenderItems(FixedItems(items)))
    ensures Patched(source, at, OuterItems(items, at + 1), at + 2 + |RenderItems(items)|)
            == Some([Opener(b)] + RenderItems(FixedItems(items)) + [Closer(b)])
  {
    hide Patched;
    var close, inner, text := at + 1 + |RenderItems(items)|, OuterItems(items, at + 1), RenderItems(FixedItems(items));
    SplicesAfter(source, at, [Opener(b)], inner, close, text);
    SplicesUpTo(source, at, inner, close, [Opener(b)] + text, [Closer(b)]);
  }

  lemma {:induction false} SplicedItems(source: string, at: nat, items: Items)
    requires Sits(source, at, RenderItems(items)) && TidyItems(items)
    ensures Patched(source, at, OuterItems(items, at), at + |RenderItems(items)|) == Some(RenderItems(FixedItems(items)))
    decreases items, 2
  {
    match items
    case Close(_, _) => SplicesItself(source, at, RenderItems(items));
    case Item(gap, body, rest) => SplicedOneByOne(source, at, gap, body, rest);
  }

  lemma {:induction false} SplicedOneByOne(source: string, at: nat, gap: string, body: Code, rest: Items)
    requires Sits(source, at, RenderItems(Item(gap, body, rest))) && TidyItems(Item(gap, body, rest))
    ensures var items := Item(gap, body, rest);
            Patched(source, at, OuterItems(items, at), at + |RenderItems(items)|) == Some(RenderItems(FixedItems(items)))
    decreases Item(gap, body, rest), 1
  {
    hide Patched, Fixed, Outer;
    var items, end := Item(gap, body, rest), at + |gap| + |Render(body)|;
    var head, tail := gap + Render(Fixed(body)), RenderItems(FixedItems(rest));
    assert Patched(source, at, Outer(body, at + |gap|), end) == Some(head) by {
      SplicedItem(source, at, gap, body, rest);
    }
    assert Patched(source, end, OuterItems(rest, end), end + |RenderItems(rest)|) == Some(tail) by {
      ItemSits(source, at, gap, body, rest);
      SplicedItems(source, end, rest);
    }
    ItemInParts(items, at);
    SplicesInto(source, at, Outer(body, at + |gap|), end, head, OuterItems(rest, end), tail,
                OuterItems(items, at), at + |RenderItems(items)|, RenderItems(FixedItems(items)));
  }

  lemma {:induction false} SplicedItem(source: string, at: nat, gap: string, body: Code, rest: Items)
    requires Sits(source, at, RenderItems(Item(gap, body, rest))) && TidyItems(Item(gap, body, rest))
    ensures Patched(source, at, Outer(body, at + |gap|), at + |gap| + |Render(body)|) == Some(gap + Render(Fixed(body)))
    decreases Item(gap, body, rest), 0
  {
    hide Patched, Fixed, Outer;
    var groups, to, text := Outer(body, at + |gap|), at + |gap| + |Render(body)|, Render(Fixed(body));
    ItemSits(source, at, gap, body, rest);
    assert Patched(source, at + |gap|, groups, to) == Some(text) by {
      SplicedCode(source, at + |gap|, body);
    }
    SplicesAfter(source, at, gap, groups, to, text);
  }

  lemma ItemInParts(items: Items, at: nat)
    requires items.Item?
    ensures var end := at + |items.gap| + |Render(items.body)|;
            && OuterItems(items, at) == Outer(items.body, at + |items.gap|) + OuterItems(items.rest, end)
            && at + |RenderItems(items)| == end + |RenderItems(items.rest)|
    ensures RenderItems(FixedItems(items)) == items.gap + Render(Fixed(items.body)) + RenderItems(FixedItems(items.rest))
  {
  }

  // ---- the loop ----

  lemma BadAreViolations(c: Code, at: nat)
    ensures Bad(c, at) == [] <==> Height(c) == 0
    decreases c
  {
    match c
    case End =>
    case Text(s, rest) => BadAreViolations(rest, at + |s|);
    case Group(_, _, items, rest) =>
      BadItemsAreViolations(items, at + 1);
      BadAreViolations(rest, at + 2 + |RenderItems(items)|);
  }

  lemma BadItemsAreViolations(items: Items, at: nat)
    ensures BadItems(items, at) == [] <==> ItemsHeight(items) == 0
    decreases items
  {
    if items.Item? {
      BadAreViolations(items.body, at + |items.gap|);
      BadItemsAreViolations(items.rest, at + |items.gap| + |Render(items.body)|);
    }
  }

  /** In whatever order the walk meets the groups, the violations found are the file's. */
  lemma FoundInAnyOrder(source: string, c: Code, groups: seq<Span>)
    requires source == Render(c) && multiset(groups) == multiset(Spans(c, 0))
    ensures Found(source, Spans(c, 0), Bad(c, 0))
    ensures forall g :: g in groups <==> g in Spans(c, 0)
    ensures Nested(groups)
  {
    WhatIsFound(source, 0, c);
    SameMembers(groups, Spans(c, 0));
    SpansInOrder(c, 0);
    OrderNests(Spans(c, 0));
  }

  method Inspect(source: string, groups: seq<Span>, ghost c: Code) returns (found: seq<Span>)
    requires source == Render(c) && multiset(groups) == multiset(Spans(c, 0))
    ensures forall g :: g in found <==> g in Bad(c, 0)
    ensures found == [] <==> Height(c) == 0
    ensures Nested(found)
  {
    FoundInAnyOrder(source, c, groups);
    found := Violations(source, groups);
    BadAreViolations(c, 0);
    BothEmpty(found, Bad(c, 0));
  }

  lemma PatchedWhole(source: string, c: Code)
    requires source == Render(c) && Tidy(c)
    ensures Patched(source, 0, Outer(c, 0), |source|) == Some(Render(Fixed(c)))
  {
    hide Patched;
    assert 0 + |Render(c)| == |source|;
    SplicedCode(source, 0, c);
  }

  lemma PatchedIsSpliced(source: string, groups: seq<Span>, text: string)
    requires Patched(source, 0, groups, |source|) == Some(text)
    ensures InTurn(0, groups, |source|) && Spliced(source, 0, groups, |source|) == text
  {
  }

  /** One turn of the loop: the text of the file with its outermost violations spread out. */
  method Pass(source: string, found: seq<Span>, ghost c: Code) returns (out: string)
    requires source == Render(c) && Tidy(c) && Nested(found) && forall g :: g in found <==> g in Bad(c, 0)
    ensures out == Render(Fixed(c))
  {
    var kept := Outermost(found);
    assert kept == Outer(c, 0) by {
      OuterLie(c, 0);
      OuterCovers(c, 0);
      SameCover(found, Bad(c, 0), kept, Outer(c, 0));
    }
    PatchedWhole(source, c);
    PatchedIsSpliced(source, kept, Render(Fixed(c)));
    out := Rewrite(source, kept);
  }

  // ---- a pass keeps what the parser is relied on to find ----

  predicate SameEnds(a: string, b: string) {
    && (a == "" <==> b == "")
    && (a != "" ==> a[0] == b[0] && a[|a| - 1] == b[|b| - 1])
  }

  lemma EndsTogether(a: string, b: string, a': string, b': string)
    requires SameEnds(a, a') && SameEnds(b, b')
    ensures SameEnds(a + b, a' + b')
  {
  }

  lemma {:induction false} FixedEnds(c: Code)
    ensures SameEnds(Render(c), Render(Fixed(c)))
  {
    match c
    case End =>
    case Text(s, rest) =>
      FixedEnds(rest);
      EndsTogether(s, Render(rest), s, Render(Fixed(rest)));
    case Group(b, trailing, items, rest) =>
      FixedEnds(rest);
      var Group(_, _, items', rest') := Fixed(c);
      BracketEnds(b, RenderItems(items), RenderItems(items'));
      EndsTogether([Opener(b)] + RenderItems(items) + [Closer(b)], Render(rest),
                   [Opener(b)] + RenderItems(items') + [Closer(b)], Render(rest'));
  }

  lemma BracketEnds(b: Bracket, s: string, s': string)
    ensures SameEnds([Opener(b)] + s + [Closer(b)], [Opener(b)] + s' + [Closer(b)])
  {
  }

  lemma {:induction false} FixedIsTidy(c: Code)
    requires Tidy(c)
    ensures Tidy(Fixed(c))
  {
    match c
    case End =>
    case Text(_, rest) => FixedIsTidy(rest);
    case Group(_, trailing, items, rest) =>
      FixedIsTidy(rest);
      if Violates(trailing, items) {
        SpreadIsTidy(items, "\n");
      } else {
        FixedItemsAreTidy(items);
      }
  }

  lemma {:induction false} SpreadIsTidy(items: Items, gap: string)
    requires TidyItems(items)
    ensures TidyItems(Spread(items, gap))
  {
    if items.Item? {
      SpreadIsTidy(items.rest, ",\n");
    }
  }

  lemma {:induction false} FixedItemsAreTidy(items: Items)
    requires TidyItems(items)
    ensures TidyItems(FixedItems(items))
  {
    if items.Item? {
      FixedEnds(items.body);
      FixedIsTidy(items.body);
      FixedItemsAreTidy(items.rest);
    }
  }

  // ---- the loop over passes ----

  const PASSES := 20

  function AsRead(gaps: seq<seq<string>>, read: string -> string): seq<seq<string>> {
    seq(|gaps|, i requires 0 <= i < |gaps| => Each(gaps[i], read))
  }

  function Each(texts: seq<string>, read: string -> string): seq<string> {
    seq(|texts|, i requires 0 <= i < |texts| => read(texts[i]))
  }

  /**
   What is relied on: the walk meets every group once, and the formatter neither joins nor splits lines, keeps items
   beginning and ending with a token, and keeps the code and what lies between items as `read` reads them.
   */
  ghost predicate Relied(walk: Code -> seq<Span>, gofmt: Code -> Code, read: string -> string) {
    MeetsAll(walk) && FormatsAll(gofmt, read)
  }

  ghost predicate MeetsAll(walk: Code -> seq<Span>) {
    forall c :: multiset(walk(c)) == multiset(Spans(c, 0))
  }

  ghost predicate FormatsAll(gofmt: Code -> Code, read: string -> string) {
    forall c | Tidy(c) :: Formats(c, gofmt(c), read)
  }

  ghost predicate Formats(c: Code, c': Code, read: string -> string) {
    && SameBreaks(c, c') && Tidy(c')
    && Tokens(c', read) == Tokens(c, read) && AsRead(Gaps(c'), read) == AsRead(Gaps(c), read)
  }

  /** It can be: a formatter that finds nothing to do meets it for every reading. */
  lemma ItCanBeRelied(read: string -> string)
    ensures Relied((c: Code) => Spans(c, 0), (c: Code) => c, read)
  {
    forall c: Code ensures SameBreaks(c, c) {
      BreaksAsItself(c);
    }
  }

  lemma {:induction false} BreaksAsItself(c: Code)
    ensures SameBreaks(c, c)
  {
    match c
    case End =>
    case Text(_, rest) => BreaksAsItself(rest);
    case Group(_, _, items, rest) =>
      ItemsBreakAsThemselves(items);
      BreaksAsItself(rest);
  }

  lemma {:induction false} ItemsBreakAsThemselves(items: Items)
    ensures SameItemBreaks(items, items)
  {
    if items.Item? {
      BreaksAsItself(items.body);
      ItemsBreakAsThemselves(items.rest);
    }
  }

  /** The groups that `n` passes spread out: those that violate the rule inside fewer than `n` others that do. */
  function Swept(c: Code, n: nat): (swept: seq<bool>)
    ensures |swept| == |Verdicts(c)|
  {
    InReach(Verdicts(c), Depths(c, 0), n)
  }

  /**
   What `n` passes make of a file, up to its formatting: of every group whether it still violates, in how many others
   that do, and what lies between its items.
   */
  ghost predicate After(c: Code, r: Code, n: nat, read: string -> string) {
    && Tidy(r) && Tokens(r, read) == Tokens(c, read)
    && Verdicts(r) == Cleared(Verdicts(c), Swept(c, n)) && Depths(r, 0) == Lowered(Depths(c, 0), n)
    && AsRead(Gaps(r), read) == AsRead(Respaced(Gaps(c), Swept(c, n)), read)
  }

  lemma AfterNone(c: Code, read: string -> string)
    requires Tidy(c)
    ensures After(c, c, 0, read)
  {
    assert Cleared(Verdicts(c), Swept(c, 0)) == Verdicts(c) && Lowered(Depths(c, 0), 0) == Depths(c, 0);
    assert Respaced(Gaps(c), Swept(c, 0)) == Gaps(c);
  }

  lemma AfterOneMore(c: Code, r: Code, r': Code, n: nat, read: string -> string)
    requires After(c, r, n, read) && Formats(Fixed(r), r', read)
    ensures After(c, r', n + 1, read)
  {
    APassKeepsTheCode(r, read);
    FormattingKeepsTheVerdicts(Fixed(r), r', 0);
    APassClearsTheOutermost(r);
    APassComesNearer(r);
    APassRewritesTheGaps(r);
    SweptByOneMore(Verdicts(c), Depths(c, 0), n);
    GapsByOneMore(Gaps(c), Gaps(r), Swept(c, n), Repaired(r), Swept(c, n + 1), read);
  }

  lemma SweptByOneMore(v: seq<bool>, d: seq<nat>, n: nat)
    requires |v| == |d|
    ensures var v', d' := Cleared(v, InReach(v, d, n)), Lowered(d, n);
            && Cleared(v', InReach(v', d', 1)) == Cleared(v, InReach(v, d, n + 1))
            && Lowered(d', 1) == Lowered(d, n + 1)
            && forall k | 0 <= k < |v| :: InReach(v, d, n + 1)[k] <==> InReach(v, d, n)[k] || InReach(v', d', 1)[k]
  {
  }

  lemma GapsByOneMore(
      gaps: seq<seq<string>>, gaps': seq<seq<string>>, swept: seq<bool>, fixed: seq<bool>, swept': seq<bool>,
      read: string -> string)
    requires |gaps| == |gaps'| == |swept| == |fixed| == |swept'|
    requires AsRead(gaps', read) == AsRead(Respaced(gaps, swept), read)
    requires forall k | 0 <= k < |swept| :: swept'[k] <==> swept[k] || fixed[k]
    ensures AsRead(Respaced(gaps', fixed), read) == AsRead(Respaced(gaps, swept'), read)
  {
    forall k | 0 <= k < |gaps|
      ensures Each(Respaced(gaps', fixed)[k], read) == Each(Respaced(gaps, swept')[k], read)
    {
      assert AsRead(gaps', read)[k] == AsRead(Respaced(gaps, swept), read)[k];
      assert |Each(gaps'[k], read)| == |Each(Respaced(gaps, swept)[k], read)|;
    }
  }

  /** Once nothing violates the rule, further passes would change nothing. */
  lemma NothingLeft(c: Code, r: Code, n: nat, m: nat, read: string -> string)
    requires After(c, r, n, read) && true !in Verdicts(r) && n <= m
    ensures Swept(c, m) == Swept(c, n)
  {
    forall k | 0 <= k < |Verdicts(c)| ensures Swept(c, m)[k] == Swept(c, n)[k] {
      assert Verdicts(r)[k] in Verdicts(r);
    }
  }

  /** The loop of fixing as a function: passes, each formatted, while there are violations and passes left. */
  function Cleaned(c: Code, gofmt: Code -> Code, n: nat): Code
    decreases n
  {
    if n == 0 || true !in Verdicts(c) then c else Cleaned(gofmt(Fixed(c)), gofmt, n - 1)
  }

  lemma CleanedOnce(c: Code, gofmt: Code -> Code, n: nat)
    ensures n > 0 && true in Verdicts(c) ==> Cleaned(c, gofmt, n) == Cleaned(gofmt(Fixed(c)), gofmt, n - 1)
  {
  }

  lemma CleanedAlready(c: Code, gofmt: Code -> Code, n: nat)
    ensures n == 0 || true !in Verdicts(c) ==> Cleaned(c, gofmt, n) == c
  {
  }

  /** Whatever was changed was formatted last. */
  lemma {:induction false} CleanedIsFormatted(c: Code, gofmt: Code -> Code, read: string -> string, n: nat)
    requires Tidy(c) && FormatsAll(gofmt, read)
    ensures n > 0 && true in Verdicts(c) ==> exists x :: Tidy(x) && Cleaned(c, gofmt, n) == gofmt(x)
    decreases n
  {
    hide Formats, Verdicts, Fixed, Tidy;
    if n > 0 && true in Verdicts(c) {
      var x := Fixed(c);
      FixedIsTidy(c);
      KeptAndTidy(x, gofmt, read);
      CleanedIsFormatted(gofmt(x), gofmt, read, n - 1);
      if n == 1 || true !in Verdicts(gofmt(x)) {
        assert Tidy(x) && Cleaned(c, gofmt, n) == gofmt(x);
      }
    }
  }

  lemma KeptAndTidy(x: Code, gofmt: Code -> Code, read: string -> string)
    requires Tidy(x) && FormatsAll(gofmt, read)
    ensures Formats(x, gofmt(x), read) && Tidy(gofmt(x))
  {
  }

  /** So formatting the result changes nothing, if formatting twice is formatting once. */
  lemma CleanedStaysFormatted(c: Code, gofmt: Code -> Code, read: string -> string)
    requires Tidy(c) && FormatsAll(gofmt, read) && true in Verdicts(c)
    requires forall x | Tidy(x) :: gofmt(gofmt(x)) == gofmt(x)
    ensures gofmt(Cleaned(c, gofmt, PASSES)) == Cleaned(c, gofmt, PASSES)
  {
    CleanedIsFormatted(c, gofmt, read, PASSES);
  }

  /**
   A file by its structure, left alone if it is marked generated, with `walk` for the traversal and `gofmt` for the
   formatter. Fixing keeps the code, spreads out exactly the violating groups inside fewer than twenty others that
   violate, formats what it changed and leaves a file without violations as it is; so it cleans a file exactly when its
   violations nest at most twenty deep. It never reports one. Checking reports a file exactly when it has a violation.
   */
  method Process(c: Code, generated: bool, fix: bool, walk: Code -> seq<Span>, gofmt: Code -> Code,
                 ghost read: string -> string)
    returns (r: Code, bad: bool)
    requires Tidy(c) && Relied(walk, gofmt, read)
    ensures generated ==> r == c && !bad
    ensures !generated && !fix ==> r == c && (bad <==> true in Verdicts(c))
    ensures !generated && fix ==> !bad && r == Cleaned(c, gofmt, PASSES) && Height(r) == Less(Height(c), PASSES)
    ensures !generated && fix ==> (true !in Verdicts(r) <==> Height(c) <= PASSES)
    ensures !generated && fix ==> Verdicts(r) == Cleared(Verdicts(c), Swept(c, PASSES))
    ensures !generated && fix ==> AsRead(Gaps(r), read) == AsRead(Respaced(Gaps(c), Swept(c, PASSES)), read)
    ensures !generated && fix && true in Verdicts(c) ==> exists x :: Tidy(x) && r == gofmt(x)
    ensures Tokens(r, read) == Tokens(c, read) && (true !in Verdicts(c) ==> r == c)
  {
    hide Verdicts, Height, Cleaned, Tokens, Gaps, AsRead, Respaced, Swept, FormatsAll, Tidy, Fixed;
    r := c;
    if generated {
      return c, false;
    }
    NoHeightNoViolation(c);
    if !fix {
      var found := Inspect(Render(c), walk(c), c);
      return c, |found| > 0;
    }
    r := Fix(c, walk, gofmt, read);
    CleanedIsFormatted(c, gofmt, read, PASSES);
    NoHeightNoViolation(r);
    return r, false;
  }

  method Fix(c: Code, walk: Code -> seq<Span>, gofmt: Code -> Code, ghost read: string -> string) returns (r: Code)
    requires Tidy(c) && Relied(walk, gofmt, read)
    ensures r == Cleaned(c, gofmt, PASSES) && Height(r) == Less(Height(c), PASSES)
    ensures Tokens(r, read) == Tokens(c, read) && (Height(c) == 0 ==> r == c)
    ensures Verdicts(r) == Cleared(Verdicts(c), Swept(c, PASSES))
    ensures AsRead(Gaps(r), read) == AsRead(Respaced(Gaps(c), Swept(c, PASSES)), read)
  {
    hide Height, Verdicts, Fixed, After, Relied, Tidy, Tokens, Cleaned, Gaps, AsRead, Respaced, Swept;
    r := c;
    AfterNone(c, read);
    var n := 0;
    while n < PASSES
      invariant n <= PASSES && After(c, r, n, read) && Height(r) == Less(Height(c), n)
      invariant Cleaned(c, gofmt, PASSES) == Cleaned(r, gofmt, PASSES - n) && (Height(c) == 0 ==> r == c)
    {
      NoHeightNoViolation(r);
      AfterIsTidy(c, r, n, read);
      var done, next := TryPass(r, walk, gofmt, read);
      CleanedOnce(r, gofmt, PASSES - n);
      if done {
        break;
      }
      OnePass(c, r, n, walk, gofmt, read);
      r, n := next, n + 1;
    }
    NoHeightNoViolation(r);
    CleanedAlready(r, gofmt, PASSES - n);
    AfterAll(c, r, n, read);
  }

  method TryPass(c: Code, walk: Code -> seq<Span>, gofmt: Code -> Code, ghost read: string -> string)
    returns (done: bool, r: Code)
    requires Tidy(c) && Relied(walk, gofmt, read)
    ensures done <==> true !in Verdicts(c)
    ensures !done ==> r == gofmt(Fixed(c))
  {
    hide Verdicts, FormatsAll, Tidy, Height;
    var source := Render(c);
    var found := Inspect(source, walk(c), c);
    NoHeightNoViolation(c);
    if |found| == 0 {
      return true, c;
    }
    var spread := Pass(source, found, c);
    assert spread == Render(Fixed(c));
    return false, gofmt(Fixed(c));
  }

  lemma AfterIsTidy(c: Code, r: Code, n: nat, read: string -> string)
    requires After(c, r, n, read)
    ensures Tidy(r)
  {
  }

  lemma AfterAll(c: Code, r: Code, n: nat, read: string -> string)
    requires After(c, r, n, read) && n <= PASSES && (n == PASSES || true !in Verdicts(r))
    ensures Tokens(r, read) == Tokens(c, read)
    ensures Verdicts(r) == Cleared(Verdicts(c), Swept(c, PASSES))
    ensures AsRead(Gaps(r), read) == AsRead(Respaced(Gaps(c), Swept(c, PASSES)), read)
  {
    if n < PASSES {
      NothingLeft(c, r, n, PASSES, read);
    }
  }

  /** What one turn of the loop makes of the file. */
  lemma OnePass(
      c: Code, r: Code, n: nat, walk: Code -> seq<Span>, gofmt: Code -> Code, read: string -> string)
    requires After(c, r, n, read) && Relied(walk, gofmt, read)
    ensures After(c, gofmt(Fixed(r)), n + 1, read) && Height(gofmt(Fixed(r))) == Less(Height(r), 1)
  {
    FixedIsTidy(r);
    KeptAndTidy(Fixed(r), gofmt, read);
    AfterOneMore(c, r, gofmt(Fixed(r)), n, read);
    APassLowersTheHeight(r);
    FormattingKeepsTheHeight(Fixed(r), gofmt(Fixed(r)));
  }

  // ---- a file on which fixing falls short ----

  function Call(first: Code, gap: string, second: Code): Code {
    CallSpaced("", first, gap, second)
  }

  /** A call of two arguments and the comma and line break that close it. */
  function CallSpaced(before: string, first: Code, gap: string, second: Code): Code {
    Text("f", Group(Round, false, Item(before, first, Item(gap, second, Close(false, ",\n"))), End))
  }

  function File(expression: Code): Code {
    Text("package p\n\nvar _ = ", expression)
  }

  /** Calls nested in the last argument of one another, each with its closing bracket on a line of its own. */
  function Calls(n: nat): Code {
    if n == 0 then Text("y", End) else Call(Text("y", End), ", ", Calls(n - 1))
  }

  lemma Plain(s: string)
    ensures Render(Text(s, End)) == s && Tidy(Text(s, End))
  {
    assert s + "" == s;
  }

  lemma CallsAreTight(n: nat)
    ensures Tight(Render(Calls(n)))
  {
    if n == 0 {
      Plain("y");
    } else {
      var group := Calls(n).rest;
      assert Render(group) == [Opener(Round)] + RenderItems(group.items) + [Closer(Round)] + "";
      assert Render(Calls(n)) == "f" + Render(group);
    }
  }

  lemma {:induction false} CallsAreTidy(n: nat)
    ensures Tidy(Calls(n))
  {
    hide Render;
    Plain("y");
    if n > 0 {
      CallsAreTidy(n - 1);
      CallsAreTight(n - 1);
      var last := Item(", ", Calls(n - 1), Close(false, ",\n"));
      assert TidyItems(last) && Tidy(Text("y", End));
      assert TidyItems(Item("", Text("y", End), last));
      assert Tidy(Calls(n).rest);
    }
  }

  /** Its first argument stands on the line of the bracket, and the call spans several lines. */
  lemma ACallViolates(first: string, gap: string, second: Code)
    ensures Violates(false, Call(Text(first, End), gap, second).rest.items)
  {
    var items := Call(Text(first, End), gap, second).rest.items;
    assert '\n' in RenderItems(Close(false, ",\n")) by {
      assert RenderItems(Close(false, ",\n")) == Dots(false) + ",\n" && (Dots(false) + ",\n")[1] == '\n';
    }
    assert '\n' in RenderItems(items.rest);
  }

  lemma {:induction false} CallsAreHigh(n: nat)
    ensures Height(File(Calls(n))) == n
  {
    hide Violates;
    if n > 0 {
      CallsAreHigh(n - 1);
      ACallViolates("y", ", ", Calls(n - 1));
      var last := Item(", ", Calls(n - 1), Close(false, ",\n"));
      assert ItemsHeight(last) == n - 1;
      assert ItemsHeight(Item("", Text("y", End), last)) == n - 1;
      assert Height(Calls(n).rest) == n == Height(Calls(n));
    }
  }

  /**
   Twenty deep is cleaned; twenty-one is one too many: whatever the formatter does within its contract, a violation is
   left, unreported.
   */
  method OneTooDeep(walk: Code -> seq<Span>, gofmt: Code -> Code, ghost read: string -> string)
    returns (cleaned: Code, r: Code, bad: bool)
    requires Relied(walk, gofmt, read)
    ensures true !in Verdicts(cleaned) && true in Verdicts(r) && !bad
  {
    hide Calls, Tidy, Relied, Verdicts, Cleaned, Gaps, Tokens, Swept;
    NestedCalls(20);
    cleaned, bad := Process(File(Calls(20)), false, true, walk, gofmt, read);
    NestedCalls(21);
    r, bad := Process(File(Calls(21)), false, true, walk, gofmt, read);
  }

  lemma NestedCalls(n: nat)
    ensures Tidy(File(Calls(n))) && Height(File(Calls(n))) == n
  {
    hide Calls;
    CallsAreHigh(n);
    CallsAreTidy(n);
    TidyFile(Calls(n));
  }

  lemma TidyFile(c: Code)
    requires Tidy(c)
    ensures Tidy(File(c))
  {
  }

  /** A comment between two arguments lies in a gap, so the pass that spreads the call out deletes it. */
  lemma ACommentIsLost()
    ensures var c := File(Call(Text("a", End), ", /* why */ ", Text("b", End)));
            && Render(c) == "package p\n\nvar _ = f(a, /* why */ b,\n)"
            && Render(Fixed(c)) == "package p\n\nvar _ = f(\na,\nb,\n)"
  {
    hide Violates, Render;
    var a, b := Text("a", End), Text("b", End);
    Plain("a");
    Plain("b");
    ACallViolates("a", ", /* why */ ", b);
    FileRenders("", "a", ", /* why */ ", "b");
    FileRenders("\n", "a", ",\n", "b");
    assert Fixed(Call(a, ", /* why */ ", b)) == CallSpaced("\n", a, ",\n", b);
  }

  lemma FileRenders(before: string, first: string, gap: string, second: string)
    ensures Render(File(CallSpaced(before, Text(first, End), gap, Text(second, End))))
            == "package p\n\nvar _ = " + ("f(" + before + first + gap + second + ",\n)")
  {
    var a, b, last := Text(first, End), Text(second, End), Close(false, ",\n");
    Plain(first);
    Plain(second);
    assert RenderItems(last) == ",\n";
    assert RenderItems(Item(gap, b, last)) == gap + second + ",\n";
    var items := Item(before, a, Item(gap, b, last));
    assert RenderItems(items) == before + first + (gap + second + ",\n");
    assert Render(Group(Round, false, items, End)) == "(" + RenderItems(items) + ")" + "";
    assert "f" + ("(" + (before + first + (gap + second + ",\n")) + ")" + "")
        == "f(" + before + first + gap + second + ",\n)";
  }
}
