/** Which violations a pass of tools/arglayout/main.go keeps: the outermost of a properly nested family. */
module Passing {
  import opened Layout
  import opened Splicing

  predicate Inside(g: Span, h: Span) {
    h.open < g.open && g.close < h.close
  }

  /** Brackets match, so two groups are the same, apart, or one inside the other. */
  ghost predicate Nested(groups: seq<Span>) {
    && (forall g | g in groups :: g.open < g.close)
    && (forall g, h | g in groups && h in groups && g.open <= h.open :: g == h || Inside(h, g) || g.close < h.open)
  }

  /** In order and pairwise disjoint. */
  predicate Apart(groups: seq<Span>) {
    && (forall i | 0 <= i < |groups| :: groups[i].open < groups[i].close)
    && (forall i, j | 0 <= i < j < |groups| :: groups[i].close < groups[j].open)
  }

  ghost predicate IsCover(groups: seq<Span>, kept: seq<Span>) {
    && (forall k | k in kept :: k in groups)
    && (forall g | g in groups :: g in kept || exists k :: k in kept && Inside(g, k))
  }

  predicate Sorted(groups: seq<Span>) {
    forall i, j | 0 <= i < j < |groups| :: groups[i].open <= groups[j].open
  }

  lemma InsertKeepsOrder(sorted: seq<Span>, at: nat, g: Span)
    requires Sorted(sorted) && at <= |sorted|
    requires at > 0 ==> sorted[at - 1].open <= g.open
    requires at < |sorted| ==> g.open <= sorted[at].open
    ensures Sorted(sorted[..at] + [g] + sorted[at..])
  {
    var r := sorted[..at] + [g] + sorted[at..];
    forall i, j | 0 <= i < j < |r| ensures r[i].open <= r[j].open {
      var a := if i < at then sorted[i] else if i == at then g else sorted[i - 1];
      var b := if j < at then sorted[j] else if j == at then g else sorted[j - 1];
      assert r[i] == a && r[j] == b;
    }
  }

  method Insert(sorted: seq<Span>, g: Span) returns (r: seq<Span>)
    requires Sorted(sorted)
    ensures Sorted(r) && multiset(r) == multiset(sorted) + multiset{g}
  {
    var at: nat := |sorted|;
    while at > 0 && g.open < sorted[at - 1].open
      invariant at <= |sorted|
      invariant at < |sorted| ==> g.open <= sorted[at].open
    {
      at := at - 1;
    }
    r := sorted[..at] + [g] + sorted[at..];
    assert Sorted(r) by {
      InsertKeepsOrder(sorted, at, g);
    }
    assert multiset(r) == multiset(sorted) + multiset{g} by {
      assert sorted == sorted[..at] + sorted[at..];
    }
  }

  method Sort(groups: seq<Span>) returns (sorted: seq<Span>)
    ensures Sorted(sorted) && multiset(sorted) == multiset(groups)
  {
    sorted := [];
    var n := 0;
    while n < |groups|
      invariant n <= |groups| && Sorted(sorted) && multiset(sorted) == multiset(groups[..n])
    {
      assert groups[..n + 1] == groups[..n] + [groups[n]];
      sorted := Insert(sorted, groups[n]);
      n := n + 1;
    }
    assert groups[..n] == groups;
  }

  lemma SameMembers(a: seq<Span>, b: seq<Span>)
    requires multiset(a) == multiset(b)
    ensures forall g :: g in a <==> g in b
  {
    forall g ensures g in a <==> g in b {
      assert g in a <==> g in multiset(a);
      assert g in b <==> g in multiset(b);
    }
  }

  lemma OneMoreKept(before: seq<Span>, kept: seq<Span>, g: Span)
    requires Apart(kept) && IsCover(before, kept) && g.open < g.close
    requires kept == [] || kept[|kept| - 1].close < g.open
    ensures Apart(kept + [g]) && IsCover(before + [g], kept + [g])
  {
  }

  lemma OneMoreInside(before: seq<Span>, kept: seq<Span>, g: Span, last: Span)
    requires IsCover(before, kept) && last in kept && (g == last || Inside(g, last))
    ensures IsCover(before + [g], kept)
  {
  }

  lemma NextIsInside(sorted: seq<Span>, n: nat, kept: seq<Span>)
    requires Sorted(sorted) && Nested(sorted) && n < |sorted| && IsCover(sorted[..n], kept)
    requires kept != [] && sorted[n].open < kept[|kept| - 1].close
    ensures var last := kept[|kept| - 1]; last in kept && (sorted[n] == last || Inside(sorted[n], last))
  {
    var last := kept[|kept| - 1];
    assert last in kept && last in sorted[..n];
    var i :| 0 <= i < n && sorted[..n][i] == last;
    assert sorted[i] == last && last.open <= sorted[n].open;
    assert last in sorted && sorted[n] in sorted;
  }

  lemma NextIsApart(sorted: seq<Span>, n: nat, kept: seq<Span>)
    requires Sorted(sorted) && Nested(sorted) && n < |sorted| && IsCover(sorted[..n], kept)
    requires kept != [] ==> sorted[n].open >= kept[|kept| - 1].close
    ensures sorted[n].open < sorted[n].close
    ensures kept != [] ==> kept[|kept| - 1].close < sorted[n].open
  {
    assert sorted[n] in sorted;
    if kept != [] {
      var last := kept[|kept| - 1];
      assert last in kept && last in sorted[..n];
      var i :| 0 <= i < n && sorted[..n][i] == last;
      assert sorted[i] == last && last in sorted && last.open <= sorted[n].open;
    }
  }

  /** The groups inside no other, in order. */
  method Outermost(groups: seq<Span>) returns (kept: seq<Span>)
    requires Nested(groups)
    ensures Apart(kept) && IsCover(groups, kept)
  {
    var sorted := Sort(groups);
    SameMembers(sorted, groups);
    assert Nested(sorted);
    kept := [];
    var n := 0;
    while n < |sorted|
      invariant n <= |sorted| && Apart(kept) && IsCover(sorted[..n], kept)
    {
      var g := sorted[n];
      assert sorted[..n + 1] == sorted[..n] + [g];
      if |kept| > 0 && g.open < kept[|kept| - 1].close {
        NextIsInside(sorted, n, kept);
        OneMoreInside(sorted[..n], kept, g, kept[|kept| - 1]);
      } else {
        NextIsApart(sorted, n, kept);
        OneMoreKept(sorted[..n], kept, g);
        kept := kept + [g];
      }
      n := n + 1;
    }
    assert sorted[..n] == sorted;
  }

  lemma NothingCovers(groups: seq<Span>, kept: seq<Span>, g: Span)
    requires Apart(kept) && IsCover(groups, kept) && g in kept
    ensures forall h | h in groups :: !Inside(g, h)
  {
    forall h | h in groups ensures !Inside(g, h) {
      if Inside(g, h) {
        var k :| k in kept && (h == k || Inside(h, k));
        NotInside(kept, g, k);
      }
    }
  }

  /** Covering apart is being maximal: what is kept is exactly what lies inside nothing else. */
  lemma KeptAreMaximal(groups: seq<Span>, kept: seq<Span>, g: Span)
    requires Apart(kept) && IsCover(groups, kept) && g in groups
    ensures g in kept <==> forall h | h in groups :: !Inside(g, h)
  {
    if g in kept {
      NothingCovers(groups, kept, g);
    }
  }

  lemma NotInside(kept: seq<Span>, g: Span, k: Span)
    requires Apart(kept) && g in kept && k in kept
    ensures !Inside(g, k)
  {
    var i :| 0 <= i < |kept| && kept[i] == g;
    var j :| 0 <= j < |kept| && kept[j] == k;
    if i < j {
      assert kept[i].close < kept[j].open;
    } else if j < i {
      assert kept[j].close < kept[i].open;
    }
  }

  lemma SameCover(groups: seq<Span>, groups': seq<Span>, a: seq<Span>, b: seq<Span>)
    requires forall g :: g in groups <==> g in groups'
    requires Apart(a) && Apart(b) && IsCover(groups, a) && IsCover(groups', b)
    ensures a == b
  {
    InCover(groups, groups', a, b);
    InCover(groups', groups, b, a);
    SameOrder(a, b);
  }

  lemma InCover(groups: seq<Span>, groups': seq<Span>, a: seq<Span>, b: seq<Span>)
    requires forall g :: g in groups <==> g in groups'
    requires Apart(a) && IsCover(groups, a) && IsCover(groups', b)
    ensures forall g | g in a :: g in b
  {
    forall g | g in a ensures g in b {
      NothingCovers(groups, a, g);
    }
  }

  lemma {:induction false} SameOrder(a: seq<Span>, b: seq<Span>)
    requires Apart(a) && Apart(b) && forall g :: g in a <==> g in b
    ensures a == b
  {
    BothEmpty(a, b);
    if a != [] {
      SameFirst(a, b);
      SameRest(a, b);
      SameOrder(a[1..], b[1..]);
      assert a == [a[0]] + a[1..] && b == [b[0]] + b[1..];
    }
  }

  lemma SameFirst(a: seq<Span>, b: seq<Span>)
    requires Apart(a) && Apart(b) && a != [] && b != [] && forall g :: g in a <==> g in b
    ensures a[0] == b[0]
  {
    assert a[0] in b && b[0] in a;
    FirstIsFirst(a, b[0]);
    FirstIsFirst(b, a[0]);
  }

  lemma SameRest(a: seq<Span>, b: seq<Span>)
    requires Apart(a) && Apart(b) && a != [] && b != [] && a[0] == b[0] && forall g :: g in a <==> g in b
    ensures forall g :: g in a[1..] <==> g in b[1..]
    ensures Apart(a[1..]) && Apart(b[1..])
  {
    forall g ensures g in a[1..] <==> g in b[1..] {
      RestIsRest(a, g);
      RestIsRest(b, g);
    }
  }

  lemma BothEmpty(a: seq<Span>, b: seq<Span>)
    requires forall g :: g in a <==> g in b
    ensures a == [] <==> b == []
  {
    if a != [] {
      assert a[0] in b;
    }
    if b != [] {
      assert b[0] in a;
    }
  }

  lemma FirstIsFirst(a: seq<Span>, g: Span)
    requires Apart(a) && g in a
    ensures g == a[0] || a[0].open < g.open
  {
    var i :| 0 <= i < |a| && a[i] == g;
    assert i > 0 ==> a[0].close < a[i].open;
  }

  lemma RestIsRest(a: seq<Span>, g: Span)
    requires Apart(a) && a != []
    ensures g in a[1..] <==> g in a && g != a[0]
  {
    assert a == [a[0]] + a[1..];
    if g in a[1..] {
      var i :| 1 <= i < |a| && a[i] == g;
      assert a[0].close < a[i].open;
    }
  }

  // ---- the violating groups of a file ----

  function Bad(c: Code, at: nat): seq<Span> {
    match c
    case End => []
    case Text(s, rest) => Bad(rest, at + |s|)
    case Group(_, trailing, items, rest) =>
      (if Violates(trailing, items) then [SpanOf(trailing, items, at)] else [])
      + BadItems(items, at + 1) + Bad(rest, at + 2 + |RenderItems(items)|)
  }

  function BadItems(items: Items, at: nat): seq<Span> {
    match items
    case Close(_, _) => []
    case Item(gap, body, rest) => Bad(body, at + |gap|) + BadItems(rest, at + |gap| + |Render(body)|)
  }

  /** The groups a pass spreads out. */
  function Outer(c: Code, at: nat): seq<Span> {
    match c
    case End => []
    case Text(s, rest) => Outer(rest, at + |s|)
    case Group(_, trailing, items, rest) =>
      (if Violates(trailing, items) then [SpanOf(trailing, items, at)] else OuterItems(items, at + 1))
      + Outer(rest, at + 2 + |RenderItems(items)|)
  }

  function OuterItems(items: Items, at: nat): seq<Span> {
    match items
    case Close(_, _) => []
    case Item(gap, body, rest) => Outer(body, at + |gap|) + OuterItems(rest, at + |gap| + |Render(body)|)
  }

  predicate Lie(groups: seq<Span>, from: nat, to: nat) {
    forall i | 0 <= i < |groups| :: from <= groups[i].open < groups[i].close < to
  }

  lemma LieTogether(a: seq<Span>, b: seq<Span>, from: nat, mid: nat, to: nat)
    requires Lie(a, from, mid) && Lie(b, mid, to) && from <= mid <= to
    ensures Lie(a + b, from, to)
  {
  }

  lemma ApartTogether(a: seq<Span>, b: seq<Span>, from: nat, mid: nat, to: nat)
    requires Lie(a, from, mid) && Lie(b, mid, to) && Apart(a) && Apart(b)
    ensures Apart(a + b)
  {
    forall i, j | 0 <= i < j < |a + b| ensures (a + b)[i].close < (a + b)[j].open {
      if j < |a| {
        assert (a + b)[i] == a[i] && (a + b)[j] == a[j];
      } else if |a| <= i {
        assert (a + b)[i] == b[i - |a|] && (a + b)[j] == b[j - |a|];
      }
    }
  }

  /** In the order the brackets open, each group holds or precedes the later ones. */
  predicate InOrder(groups: seq<Span>) {
    && (forall i | 0 <= i < |groups| :: groups[i].open < groups[i].close)
    && (forall i, j | 0 <= i < j < |groups| :: Inside(groups[j], groups[i]) || groups[i].close < groups[j].open)
  }

  lemma OrderNests(groups: seq<Span>)
    requires InOrder(groups)
    ensures Nested(groups)
  {
    forall g, h | g in groups && h in groups && g.open <= h.open
      ensures g == h || Inside(h, g) || g.close < h.open
    {
      var i :| 0 <= i < |groups| && groups[i] == g;
      var j :| 0 <= j < |groups| && groups[j] == h;
    }
  }

  lemma OrderTogether(a: seq<Span>, b: seq<Span>, from: nat, mid: nat, to: nat)
    requires Lie(a, from, mid) && Lie(b, mid, to) && InOrder(a) && InOrder(b)
    ensures InOrder(a + b)
  {
    forall i, j | 0 <= i < j < |a + b| ensures Inside((a + b)[j], (a + b)[i]) || (a + b)[i].close < (a + b)[j].open {
      if j < |a| {
        assert (a + b)[i] == a[i] && (a + b)[j] == a[j];
      } else if |a| <= i {
        assert (a + b)[i] == b[i - |a|] && (a + b)[j] == b[j - |a|];
      }
    }
  }

  lemma {:induction false} SpansLie(c: Code, at: nat)
    ensures Lie(Spans(c, at), at, at + |Render(c)|)
    decreases c
  {
    hide RenderItems;
    match c
    case End =>
    case Text(s, rest) => SpansLie(rest, at + |s|);
    case Group(_, trailing, items, rest) =>
      var g, inner, end := SpanOf(trailing, items, at), ItemSpans(items, at + 1), at + 2 + |RenderItems(items)|;
      assert Lie([g] + inner, at, end) by {
        ItemSpansLie(items, at + 1);
      }
      SpansLie(rest, end);
      LieTogether([g] + inner, Spans(rest, end), at, end, at + |Render(c)|);
  }

  lemma {:induction false} ItemSpansLie(items: Items, at: nat)
    ensures Lie(ItemSpans(items, at), at, at + |RenderItems(items)|)
    decreases items
  {
    if items.Item? {
      var end := at + |items.gap| + |Render(items.body)|;
      SpansLie(items.body, at + |items.gap|);
      ItemSpansLie(items.rest, end);
      LieTogether(Spans(items.body, at + |items.gap|), ItemSpans(items.rest, end), at, end, at + |RenderItems(items)|);
    }
  }

  lemma Around(g: Span, inner: seq<Span>)
    requires g.open < g.close && Lie(inner, g.open + 1, g.close) && InOrder(inner)
    ensures InOrder([g] + inner) && Lie([g] + inner, g.open, g.close + 1)
  {
    var all := [g] + inner;
    forall i, j | 0 <= i < j < |all| ensures Inside(all[j], all[i]) || all[i].close < all[j].open {
      assert all[j] == inner[j - 1];
      if i > 0 {
        assert all[i] == inner[i - 1];
      }
    }
  }

  lemma {:induction false} SpansInOrder(c: Code, at: nat)
    ensures InOrder(Spans(c, at))
    decreases c
  {
    match c
    case End =>
    case Text(s, rest) => SpansInOrder(rest, at + |s|);
    case Group(_, trailing, items, rest) =>
      var g, inner, end := SpanOf(trailing, items, at), ItemSpans(items, at + 1), at + 2 + |RenderItems(items)|;
      assert Lie([g] + inner, at, end) && InOrder([g] + inner) by {
        ItemSpansLie(items, at + 1);
        ItemSpansInOrder(items, at + 1);
        Around(g, inner);
      }
      SpansLie(rest, end);
      SpansInOrder(rest, end);
      OrderTogether([g] + inner, Spans(rest, end), at, end, at + |Render(c)|);
  }

  lemma {:induction false} ItemSpansInOrder(items: Items, at: nat)
    ensures InOrder(ItemSpans(items, at))
    decreases items
  {
    if items.Item? {
      var end := at + |items.gap| + |Render(items.body)|;
      SpansLie(items.body, at + |items.gap|);
      SpansInOrder(items.body, at + |items.gap|);
      ItemSpansLie(items.rest, end);
      ItemSpansInOrder(items.rest, end);
      OrderTogether(Spans(items.body, at + |items.gap|), ItemSpans(items.rest, end), at, end, at + |RenderItems(items)|);
    }
  }

  lemma Grown(a: seq<Span>, b: seq<Span>, a': seq<Span>, b': seq<Span>)
    requires IsCover(a, a') && IsCover(b, b')
    ensures IsCover(a + b, a' + b')
  {
  }

  lemma CoveredByOne(g: Span, inner: seq<Span>)
    requires Lie(inner, g.open + 1, g.close)
    ensures IsCover([g] + inner, [g])
  {
    assert forall h | h in inner :: Inside(h, g);
  }

  lemma {:induction false} BadLie(c: Code, at: nat)
    ensures Lie(Bad(c, at), at, at + |Render(c)|)
    decreases c
  {
    match c
    case End =>
    case Text(s, rest) => BadLie(rest, at + |s|);
    case Group(_, trailing, items, rest) =>
      var end := at + 2 + |RenderItems(items)|;
      var own := if Violates(trailing, items) then [SpanOf(trailing, items, at)] else [];
      assert Lie(own + BadItems(items, at + 1), at, end) by {
        BadItemsLie(items, at + 1);
      }
      BadLie(rest, end);
      LieTogether(own + BadItems(items, at + 1), Bad(rest, end), at, end, at + |Render(c)|);
  }

  lemma {:induction false} BadItemsLie(items: Items, at: nat)
    ensures Lie(BadItems(items, at), at, at + |RenderItems(items)|)
    decreases items
  {
    if items.Item? {
      var end := at + |items.gap| + |Render(items.body)|;
      BadLie(items.body, at + |items.gap|);
      BadItemsLie(items.rest, end);
      LieTogether(Bad(items.body, at + |items.gap|), BadItems(items.rest, end), at, end, at + |RenderItems(items)|);
    }
  }

  lemma {:induction false} OuterLie(c: Code, at: nat)
    ensures Lie(Outer(c, at), at, at + |Render(c)|) && Apart(Outer(c, at))
    decreases c
  {
    hide Lie, Apart, Violates;
    match c
    case End => NoneLie(at, at);
    case Text(s, rest) =>
      OuterLie(rest, at + |s|);
      LieEarlier(Outer(rest, at + |s|), at, at + |s|, at + |s| + |Render(rest)|);
    case Group(_, trailing, items, rest) =>
      var end := at + 2 + |RenderItems(items)|;
      var own := if Violates(trailing, items) then [SpanOf(trailing, items, at)] else OuterItems(items, at + 1);
      OuterItemsLie(items, at + 1);
      OwnLie(trailing, items, at);
      OuterLie(rest, end);
      LieTogether(own, Outer(rest, end), at, end, at + |Render(c)|);
      ApartTogether(own, Outer(rest, end), at, end, at + |Render(c)|);
  }

  lemma NoneLie(from: nat, to: nat)
    ensures Lie([], from, to) && Apart([])
  {
  }

  lemma LieEarlier(groups: seq<Span>, from: nat, mid: nat, to: nat)
    requires Lie(groups, mid, to) && from <= mid
    ensures Lie(groups, from, to)
  {
  }

  lemma OwnLie(trailing: bool, items: Items, at: nat)
    requires Lie(OuterItems(items, at + 1), at + 1, at + 1 + |RenderItems(items)|) && Apart(OuterItems(items, at + 1))
    ensures var own := if Violates(trailing, items) then [SpanOf(trailing, items, at)] else OuterItems(items, at + 1);
            Lie(own, at, at + 2 + |RenderItems(items)|) && Apart(own)
  {
    hide Violates, RenderItems;
  }

  lemma {:induction false} OuterItemsLie(items: Items, at: nat)
    ensures Lie(OuterItems(items, at), at, at + |RenderItems(items)|) && Apart(OuterItems(items, at))
    decreases items
  {
    if items.Item? {
      var end := at + |items.gap| + |Render(items.body)|;
      OuterLie(items.body, at + |items.gap|);
      OuterItemsLie(items.rest, end);
      LieTogether(Outer(items.body, at + |items.gap|), OuterItems(items.rest, end), at, end, at + |RenderItems(items)|);
      ApartTogether(Outer(items.body, at + |items.gap|), OuterItems(items.rest, end), at, end, at + |RenderItems(items)|);
    }
  }

  lemma {:induction false} OuterCovers(c: Code, at: nat)
    ensures IsCover(Bad(c, at), Outer(c, at))
    decreases c
  {
    hide Lie, Violates;
    match c
    case End =>
    case Text(s, rest) => OuterCovers(rest, at + |s|);
    case Group(_, trailing, items, rest) =>
      var end, inner := at + 2 + |RenderItems(items)|, BadItems(items, at + 1);
      var g := SpanOf(trailing, items, at);
      OuterCovers(rest, end);
      if Violates(trailing, items) {
        BadItemsLie(items, at + 1);
        CoveredByOne(g, inner);
        Grown([g] + inner, Bad(rest, end), [g], Outer(rest, end));
      } else {
        OuterItemsCover(items, at + 1);
        Grown(inner, Bad(rest, end), OuterItems(items, at + 1), Outer(rest, end));
        assert [] + inner == inner;
      }
  }

  lemma {:induction false} OuterItemsCover(items: Items, at: nat)
    ensures IsCover(BadItems(items, at), OuterItems(items, at))
    decreases items
  {
    if items.Item? {
      var end := at + |items.gap| + |Render(items.body)|;
      OuterCovers(items.body, at + |items.gap|);
      OuterItemsCover(items.rest, end);
      Grown(Bad(items.body, at + |items.gap|), BadItems(items.rest, end),
            Outer(items.body, at + |items.gap|), OuterItems(items.rest, end));
    }
  }
}
