/** The line rule of tools/arglayout/main.go, on the bracket structure of a file. */
module Layout {
  import opened Numbers

  datatype Bracket = Round | Curly

  function Opener(b: Bracket): char {
    if b.Round? then '(' else '{'
  }

  function Closer(b: Bracket): char {
    if b.Round? then ')' else '}'
  }

  /** Source text as the brackets divide it: runs of text, and groups of items with what lies between them. */
  datatype Code =
    | End
    | Text(s: string, rest: Code)
    | Group(bracket: Bracket, trailing: bool, items: Items, rest: Code)

  /** `gap` is what lies before an item, or before the closing bracket; a variadic call ends in three dots. */
  datatype Items =
    | Close(variadic: bool, gap: string)
    | Item(gap: string, body: Code, rest: Items)

  function Dots(variadic: bool): string {
    if variadic then "..." else ""
  }

  function Render(c: Code): string {
    match c
    case End => ""
    case Text(s, rest) => s + Render(rest)
    case Group(b, _, items, rest) => [Opener(b)] + RenderItems(items) + [Closer(b)] + Render(rest)
  }

  function RenderItems(items: Items): string {
    match items
    case Close(variadic, gap) => Dots(variadic) + gap
    case Item(gap, body, rest) => gap + Render(body) + RenderItems(rest)
  }

  predicate Breaks(s: string) {
    '\n' in s
  }

  // ---- the rule ----

  predicate FlatGap(items: Items) {
    match items
    case Close(_, gap) => !Breaks(gap)
    case Item(gap, _, rest) => !Breaks(gap) || FlatGap(rest)
  }

  /** Every item starts on the opening line and the closing bracket follows the last one. */
  predicate SameLineHead(items: Items) {
    match items
    case Close(_, gap) => !Breaks(gap)
    case Item(gap, body, rest) => !Breaks(gap) && (rest.Item? ==> !Breaks(Render(body))) && SameLineHead(rest)
  }

  /** Spread over several lines, with two elements sharing one, unless only the last element runs on. */
  predicate Violates(trailing: bool, items: Items) {
    && items.Item? && Breaks(RenderItems(items))
    && !(trailing && SameLineHead(items))
    && FlatGap(items)
  }

  // ---- one pass ----

  function Spread(items: Items, gap: string): Items {
    match items
    case Close(variadic, _) => Close(variadic, gap)
    case Item(_, body, rest) => Item(gap, body, Spread(rest, ",\n"))
  }

  /** What one pass makes of the file: each outermost violating group is spread out, and nothing else is touched. */
  function Fixed(c: Code): Code {
    match c
    case End => End
    case Text(s, rest) => Text(s, Fixed(rest))
    case Group(b, trailing, items, rest) =>
      Group(b, trailing, if Violates(trailing, items) then Spread(items, "\n") else FixedItems(items), Fixed(rest))
  }

  function FixedItems(items: Items): Items {
    match items
    case Close(_, _) => items
    case Item(gap, body, rest) => Item(gap, Fixed(body), FixedItems(rest))
  }

  /** The verdict on every group, in the order their brackets open. */
  function Verdicts(c: Code): seq<bool> {
    match c
    case End => []
    case Text(_, rest) => Verdicts(rest)
    case Group(_, trailing, items, rest) => [Violates(trailing, items)] + ItemVerdicts(items) + Verdicts(rest)
  }

  function ItemVerdicts(items: Items): seq<bool> {
    match items
    case Close(_, _) => []
    case Item(_, body, rest) => Verdicts(body) + ItemVerdicts(rest)
  }

  function Falses(n: nat): seq<bool> {
    seq(n, _ => false)
  }

  /** Which groups violate the rule inside no other violating group. */
  function Repaired(c: Code): (o: seq<bool>)
    ensures |o| == |Verdicts(c)|
  {
    match c
    case End => []
    case Text(_, rest) => Repaired(rest)
    case Group(_, trailing, items, rest) =>
      [Violates(trailing, items)]
      + (if Violates(trailing, items) then Falses(|ItemVerdicts(items)|) else RepairedItems(items))
      + Repaired(rest)
  }

  function RepairedItems(items: Items): (o: seq<bool>)
    ensures |o| == |ItemVerdicts(items)|
  {
    match items
    case Close(_, _) => []
    case Item(_, body, rest) => Repaired(body) + RepairedItems(rest)
  }

  function Cleared(verdicts: seq<bool>, fixed: seq<bool>): seq<bool>
    requires |verdicts| == |fixed|
  {
    seq(|verdicts|, i requires 0 <= i < |verdicts| => verdicts[i] && !fixed[i])
  }

  lemma ClearedParts(v: seq<bool>, v': seq<bool>, f: seq<bool>, f': seq<bool>)
    requires |v| == |f| && |v'| == |f'|
    ensures Cleared(v + v', f + f') == Cleared(v, f) + Cleared(v', f')
  {
  }

  // ---- what a pass changes ----

  lemma {:induction false} SpreadKeepsBodies(items: Items, gap: string)
    ensures ItemVerdicts(Spread(items, gap)) == ItemVerdicts(items)
  {
    if items.Item? {
      SpreadKeepsBodies(items.rest, ",\n");
    }
  }

  lemma {:induction false} SpreadIsNotFlat(items: Items, gap: string)
    requires Breaks(gap)
    ensures !FlatGap(Spread(items, gap)) && Breaks(RenderItems(Spread(items, gap)))
  {
    if items.Item? {
      SpreadIsNotFlat(items.rest, ",\n");
    }
  }

  /** A pass never puts on one line what was spread over several, nor the other way round. */
  lemma {:induction false} FixedBreaks(c: Code)
    ensures Breaks(Render(Fixed(c))) <==> Breaks(Render(c))
  {
    match c
    case End =>
    case Text(_, rest) => FixedBreaks(rest);
    case Group(_, trailing, items, rest) =>
      FixedBreaks(rest);
      if Violates(trailing, items) {
        SpreadIsNotFlat(items, "\n");
      } else {
        FixedItemsBreak(items);
      }
  }

  lemma {:induction false} FixedItemsBreak(items: Items)
    ensures Breaks(RenderItems(FixedItems(items))) <==> Breaks(RenderItems(items))
  {
    if items.Item? {
      FixedBreaks(items.body);
      FixedItemsBreak(items.rest);
    }
  }

  lemma {:induction false} FixedItemsKeepGaps(items: Items)
    ensures FlatGap(FixedItems(items)) <==> FlatGap(items)
    ensures SameLineHead(FixedItems(items)) <==> SameLineHead(items)
  {
    if items.Item? {
      FixedBreaks(items.body);
      FixedItemsKeepGaps(items.rest);
    }
  }

  /** A group that a pass goes through keeps its verdict; one that it spreads out no longer violates. */
  lemma VerdictOfFixed(trailing: bool, items: Items)
    ensures Violates(trailing, FixedItems(items)) <==> Violates(trailing, items)
    ensures !Violates(trailing, Spread(items, "\n"))
  {
    FixedItemsBreak(items);
    FixedItemsKeepGaps(items);
    SpreadIsNotFlat(items, "\n");
  }

  /** A pass repairs exactly the outermost violating groups: every other verdict, around, inside or beside, stays. */
  lemma {:induction false} APassClearsTheOutermost(c: Code)
    ensures Verdicts(Fixed(c)) == Cleared(Verdicts(c), Repaired(c))
  {
    match c
    case End =>
    case Text(_, rest) => APassClearsTheOutermost(rest);
    case Group(_, trailing, items, rest) =>
      APassClearsTheOutermost(rest);
      VerdictOfFixed(trailing, items);
      var head, inner := [Violates(trailing, items)], ItemVerdicts(items);
      var inner' := if Violates(trailing, items) then Falses(|inner|) else RepairedItems(items);
      if Violates(trailing, items) {
        SpreadKeepsBodies(items, "\n");
        assert Cleared(inner, inner') == inner;
      } else {
        APassClearsTheRepairedItems(items);
      }
      ClearedParts(head + inner, Verdicts(rest), head + inner', Repaired(rest));
      ClearedParts(head, inner, head, inner');
      assert Cleared(head, head) == [false];
  }

  lemma {:induction false} APassClearsTheRepairedItems(items: Items)
    ensures ItemVerdicts(FixedItems(items)) == Cleared(ItemVerdicts(items), RepairedItems(items))
  {
    if items.Item? {
      APassClearsTheOutermost(items.body);
      APassClearsTheRepairedItems(items.rest);
      ClearedParts(Verdicts(items.body), ItemVerdicts(items.rest), Repaired(items.body), RepairedItems(items.rest));
    }
  }

  // ---- how deep violations nest ----

  function Height(c: Code): nat {
    match c
    case End => 0
    case Text(_, rest) => Height(rest)
    case Group(_, trailing, items, rest) =>
      Max((if Violates(trailing, items) then 1 else 0) + ItemsHeight(items), Height(rest))
  }

  function ItemsHeight(items: Items): nat {
    match items
    case Close(_, _) => 0
    case Item(_, body, rest) => Max(Height(body), ItemsHeight(rest))
  }

  function Less(n: nat, k: nat): nat {
    if n < k then 0 else n - k
  }

  lemma {:induction false} SpreadKeepsHeight(items: Items, gap: string)
    ensures ItemsHeight(Spread(items, gap)) == ItemsHeight(items)
  {
    if items.Item? {
      SpreadKeepsHeight(items.rest, ",\n");
    }
  }

  lemma {:induction false} APassLowersTheHeight(c: Code)
    ensures Height(Fixed(c)) == Less(Height(c), 1)
  {
    match c
    case End =>
    case Text(_, rest) => APassLowersTheHeight(rest);
    case Group(_, trailing, items, rest) =>
      APassLowersTheHeight(rest);
      VerdictOfFixed(trailing, items);
      if Violates(trailing, items) {
        SpreadKeepsHeight(items, "\n");
      } else {
        APassLowersItems(items);
      }
  }

  lemma {:induction false} APassLowersItems(items: Items)
    ensures ItemsHeight(FixedItems(items)) == Less(ItemsHeight(items), 1)
  {
    if items.Item? {
      APassLowersTheHeight(items.body);
      APassLowersItems(items.rest);
    }
  }

  lemma InEither(a: seq<bool>, b: seq<bool>)
    ensures true in a + b <==> true in a || true in b
  {
  }

  lemma {:induction false} NoHeightNoViolation(c: Code)
    ensures Height(c) == 0 <==> true !in Verdicts(c)
  {
    match c
    case End =>
    case Text(_, rest) => NoHeightNoViolation(rest);
    case Group(_, trailing, items, rest) =>
      NoHeightNoViolation(rest);
      NoItemsHeightNoViolation(items);
      InEither([Violates(trailing, items)] + ItemVerdicts(items), Verdicts(rest));
      InEither([Violates(trailing, items)], ItemVerdicts(items));
  }

  lemma {:induction false} NoItemsHeightNoViolation(items: Items)
    ensures ItemsHeight(items) == 0 <==> true !in ItemVerdicts(items)
  {
    if items.Item? {
      NoHeightNoViolation(items.body);
      NoItemsHeightNoViolation(items.rest);
      InEither(Verdicts(items.body), ItemVerdicts(items.rest));
    }
  }

  // ---- what a pass keeps ----

  /** The file without what lies between items, each run of text as `read` reads it. */
  function Tokens(c: Code, read: string -> string): Code {
    match c
    case End => End
    case Text(s, rest) => Text(read(s), Tokens(rest, read))
    case Group(b, trailing, items, rest) => Group(b, trailing, ItemTokens(items, read), Tokens(rest, read))
  }

  function ItemTokens(items: Items, read: string -> string): Items {
    match items
    case Close(variadic, _) => Close(variadic, "")
    case Item(_, body, rest) => Item("", Tokens(body, read), ItemTokens(rest, read))
  }

  lemma {:induction false} SpreadKeepsItems(items: Items, gap: string, read: string -> string)
    ensures ItemTokens(Spread(items, gap), read) == ItemTokens(items, read)
  {
    if items.Item? {
      SpreadKeepsItems(items.rest, ",\n", read);
    }
  }

  /** Every token outside the gaps stays, in its order, however the text is read. */
  lemma {:induction false} APassKeepsTheCode(c: Code, read: string -> string)
    ensures Tokens(Fixed(c), read) == Tokens(c, read)
  {
    match c
    case End =>
    case Text(_, rest) => APassKeepsTheCode(rest, read);
    case Group(_, trailing, items, rest) =>
      APassKeepsTheCode(rest, read);
      if Violates(trailing, items) {
        SpreadKeepsItems(items, "\n", read);
      } else {
        APassKeepsItems(items, read);
      }
  }

  lemma {:induction false} APassKeepsItems(items: Items, read: string -> string)
    ensures ItemTokens(FixedItems(items), read) == ItemTokens(items, read)
  {
    if items.Item? {
      APassKeepsTheCode(items.body, read);
      APassKeepsItems(items.rest, read);
    }
  }

  // ---- what a pass writes between items ----

  /** What lies between the items of each group, in the order the groups open. */
  function Gaps(c: Code): (gaps: seq<seq<string>>)
    ensures |gaps| == |Repaired(c)|
  {
    match c
    case End => []
    case Text(_, rest) => Gaps(rest)
    case Group(_, _, items, rest) => [OwnGaps(items)] + InnerGaps(items) + Gaps(rest)
  }

  function OwnGaps(items: Items): seq<string> {
    match items
    case Close(_, gap) => [gap]
    case Item(gap, _, rest) => [gap] + OwnGaps(rest)
  }

  function InnerGaps(items: Items): (gaps: seq<seq<string>>)
    ensures |gaps| == |RepairedItems(items)| == |ItemVerdicts(items)|
  {
    match items
    case Close(_, _) => []
    case Item(_, body, rest) => Gaps(body) + InnerGaps(rest)
  }

  /** One item to a line: `first` before the first of them, a comma and a line break after each. */
  function Lines(n: nat, first: string): seq<string> {
    seq(n, i => if i == 0 then first else ",\n")
  }

  function Respaced(gaps: seq<seq<string>>, fixed: seq<bool>): seq<seq<string>>
    requires |gaps| == |fixed|
  {
    seq(|gaps|, i requires 0 <= i < |gaps| => if fixed[i] then Lines(|gaps[i]|, "\n") else gaps[i])
  }

  lemma RespacedParts(g: seq<seq<string>>, g': seq<seq<string>>, f: seq<bool>, f': seq<bool>)
    requires |g| == |f| && |g'| == |f'|
    ensures Respaced(g + g', f + f') == Respaced(g, f) + Respaced(g', f')
  {
  }

  lemma {:induction false} SpreadGaps(items: Items, gap: string)
    ensures OwnGaps(Spread(items, gap)) == Lines(|OwnGaps(items)|, gap)
    ensures InnerGaps(Spread(items, gap)) == InnerGaps(items)
  {
    if items.Item? {
      SpreadGaps(items.rest, ",\n");
    }
  }

  /** Between the items of a repaired group a pass leaves commas and line breaks and nothing else; other gaps it keeps. */
  lemma {:induction false} APassRewritesTheGaps(c: Code)
    ensures Gaps(Fixed(c)) == Respaced(Gaps(c), Repaired(c))
  {
    match c
    case End =>
    case Text(_, rest) => APassRewritesTheGaps(rest);
    case Group(_, trailing, items, rest) =>
      APassRewritesTheGaps(rest);
      var bad, own, inner := Violates(trailing, items), OwnGaps(items), InnerGaps(items);
      var fixed := if bad then Falses(|ItemVerdicts(items)|) else RepairedItems(items);
      if bad {
        SpreadGaps(items, "\n");
        assert Respaced(inner, fixed) == inner;
      } else {
        APassRewritesInnerGaps(items);
      }
      RespacedParts([own] + inner, Gaps(rest), [bad] + fixed, Repaired(rest));
      RespacedParts([own], inner, [bad], fixed);
      assert Respaced([own], [bad]) == [if bad then Lines(|own|, "\n") else own];
  }

  lemma {:induction false} APassRewritesInnerGaps(items: Items)
    ensures InnerGaps(FixedItems(items)) == Respaced(InnerGaps(items), RepairedItems(items))
    ensures OwnGaps(FixedItems(items)) == OwnGaps(items)
  {
    if items.Item? {
      APassRewritesTheGaps(items.body);
      APassRewritesInnerGaps(items.rest);
      RespacedParts(Gaps(items.body), InnerGaps(items.rest), Repaired(items.body), RepairedItems(items.rest));
    }
  }

  // ---- pass after pass ----

  /** For every group, how many violating ones it lies in, besides the `around` that surround the whole. */
  function Depths(c: Code, around: nat): (depths: seq<nat>)
    ensures |depths| == |Verdicts(c)|
  {
    match c
    case End => []
    case Text(_, rest) => Depths(rest, around)
    case Group(_, trailing, items, rest) =>
      [around] + ItemDepths(items, around + (if Violates(trailing, items) then 1 else 0)) + Depths(rest, around)
  }

  function ItemDepths(items: Items, around: nat): (depths: seq<nat>)
    ensures |depths| == |ItemVerdicts(items)|
  {
    match items
    case Close(_, _) => []
    case Item(_, body, rest) => Depths(body, around) + ItemDepths(rest, around)
  }

  /** The groups that violate the rule inside fewer than `n` others that do. */
  function InReach(verdicts: seq<bool>, depths: seq<nat>, n: nat): seq<bool>
    requires |verdicts| == |depths|
  {
    seq(|verdicts|, i requires 0 <= i < |verdicts| => verdicts[i] && depths[i] < n)
  }

  function Lowered(depths: seq<nat>, n: nat): seq<nat> {
    seq(|depths|, i requires 0 <= i < |depths| => Less(depths[i], n))
  }

  lemma InReachParts(v: seq<bool>, v': seq<bool>, d: seq<nat>, d': seq<nat>, n: nat)
    requires |v| == |d| && |v'| == |d'|
    ensures InReach(v + v', d + d', n) == InReach(v, d, n) + InReach(v', d', n)
  {
  }

  lemma OneGroup(bad: bool, depth: nat)
    ensures InReach([bad], [depth], 1) == [bad && depth == 0] && Lowered([depth], 1) == [Less(depth, 1)]
  {
  }

  lemma NoGroups()
    ensures InReach([], [], 1) == [] == Falses(0) && Lowered([], 1) == []
  {
  }

  lemma FalsesTogether(m: nat, n: nat)
    ensures Falses(m) + Falses(n) == Falses(m + n) && Falses(1) == [false]
  {
  }

  lemma LoweredParts(d: seq<nat>, d': seq<nat>, n: nat)
    ensures Lowered(d + d', n) == Lowered(d, n) + Lowered(d', n)
  {
  }

  lemma {:induction false} InsideIsNotReached(c: Code, around: nat)
    requires around > 0
    ensures InReach(Verdicts(c), Depths(c, around), 1) == Falses(|Verdicts(c)|)
    ensures Lowered(Depths(c, around), 1) == Depths(c, around - 1)
  {
    hide InReach, Lowered, Falses, Violates;
    match c
    case End => NoGroups();
    case Text(_, rest) => InsideIsNotReached(rest, around);
    case Group(_, trailing, items, rest) =>
      OneGroup(Violates(trailing, items), around);
      FalsesTogether(1, |ItemVerdicts(items)|);
      FalsesTogether(1 + |ItemVerdicts(items)|, |Verdicts(rest)|);
      var below := around + (if Violates(trailing, items) then 1 else 0);
      InsideIsNotReached(rest, around);
      ItemsInsideAreNotReached(items, below);
      LoweredParts([around] + ItemDepths(items, below), Depths(rest, around), 1);
      LoweredParts([around], ItemDepths(items, below), 1);
      InReachParts([Violates(trailing, items)] + ItemVerdicts(items), Verdicts(rest),
                   [around] + ItemDepths(items, below), Depths(rest, around), 1);
      InReachParts([Violates(trailing, items)], ItemVerdicts(items), [around], ItemDepths(items, below), 1);
  }

  lemma {:induction false} ItemsInsideAreNotReached(items: Items, around: nat)
    requires around > 0
    ensures InReach(ItemVerdicts(items), ItemDepths(items, around), 1) == Falses(|ItemVerdicts(items)|)
    ensures Lowered(ItemDepths(items, around), 1) == ItemDepths(items, around - 1)
  {
    if items.Item? {
      InsideIsNotReached(items.body, around);
      ItemsInsideAreNotReached(items.rest, around);
      LoweredParts(Depths(items.body, around), ItemDepths(items.rest, around), 1);
      InReachParts(Verdicts(items.body), ItemVerdicts(items.rest),
                   Depths(items.body, around), ItemDepths(items.rest, around), 1);
    }
  }

  /** A pass repairs the violating groups inside no other, and brings those inside one step nearer. */
  lemma {:induction false} APassComesNearer(c: Code)
    ensures Repaired(c) == InReach(Verdicts(c), Depths(c, 0), 1)
    ensures Depths(Fixed(c), 0) == Lowered(Depths(c, 0), 1)
  {
    hide InReach, Lowered, Falses, Violates, FixedItems, Spread;
    match c
    case End => NoGroups();
    case Text(_, rest) => APassComesNearer(rest);
    case Group(_, trailing, items, rest) =>
      APassComesNearer(rest);
      GroupComesNearer(trailing, items);
      OneGroup(Violates(trailing, items), 0);
      var bad := Violates(trailing, items);
      var inner := ItemDepths(items, if bad then 1 else 0);
      InReachParts([bad] + ItemVerdicts(items), Verdicts(rest), [0] + inner, Depths(rest, 0), 1);
      InReachParts([bad], ItemVerdicts(items), [0], inner, 1);
      LoweredParts([0] + inner, Depths(rest, 0), 1);
      LoweredParts([0], inner, 1);
  }

  lemma {:induction false} GroupComesNearer(trailing: bool, items: Items)
    ensures var bad := Violates(trailing, items);
            var fixed := if bad then Spread(items, "\n") else FixedItems(items);
            var inner := ItemDepths(items, if bad then 1 else 0);
            && !(bad && Violates(trailing, fixed)) && (!bad ==> !Violates(trailing, fixed))
            && ItemDepths(fixed, 0) == Lowered(inner, 1)
            && InReach(ItemVerdicts(items), inner, 1)
               == if bad then Falses(|ItemVerdicts(items)|) else RepairedItems(items)
    decreases items, 1
  {
    VerdictOfFixed(trailing, items);
    if Violates(trailing, items) {
      ItemsInsideAreNotReached(items, 1);
      SpreadKeepsDepths(items, "\n", 0);
    } else {
      ItemsComeNearer(items);
    }
  }

  lemma {:induction false} ItemsComeNearer(items: Items)
    ensures RepairedItems(items) == InReach(ItemVerdicts(items), ItemDepths(items, 0), 1)
    ensures ItemDepths(FixedItems(items), 0) == Lowered(ItemDepths(items, 0), 1)
    decreases items, 0
  {
    if items.Item? {
      APassComesNearer(items.body);
      ItemsComeNearer(items.rest);
      LoweredParts(Depths(items.body, 0), ItemDepths(items.rest, 0), 1);
      InReachParts(Verdicts(items.body), ItemVerdicts(items.rest), Depths(items.body, 0), ItemDepths(items.rest, 0), 1);
    }
  }

  lemma {:induction false} SpreadKeepsDepths(items: Items, gap: string, around: nat)
    ensures ItemDepths(Spread(items, gap), around) == ItemDepths(items, around)
  {
    if items.Item? {
      SpreadKeepsDepths(items.rest, ",\n", around);
    }
  }

  // ---- the formatter ----

  /** What is relied on from the formatter: the same groups, and a line break wherever there was one. */
  predicate SameBreaks(a: Code, b: Code) {
    match a
    case End => b.End?
    case Text(s, rest) => b.Text? && (Breaks(s) <==> Breaks(b.s)) && SameBreaks(rest, b.rest)
    case Group(bracket, trailing, items, rest) =>
      b.Group? && b.bracket == bracket && b.trailing == trailing
      && SameItemBreaks(items, b.items) && SameBreaks(rest, b.rest)
  }

  predicate SameItemBreaks(a: Items, b: Items) {
    match a
    case Close(variadic, gap) => b.Close? && b.variadic == variadic && (Breaks(gap) <==> Breaks(b.gap))
    case Item(gap, body, rest) =>
      b.Item? && (Breaks(gap) <==> Breaks(b.gap)) && SameBreaks(body, b.body) && SameItemBreaks(rest, b.rest)
  }

  lemma {:induction false} SameBreaksRender(a: Code, b: Code)
    requires SameBreaks(a, b)
    ensures Breaks(Render(a)) <==> Breaks(Render(b))
  {
    match a
    case End =>
    case Text(_, rest) => SameBreaksRender(rest, b.rest);
    case Group(_, _, items, rest) =>
      SameItemBreaksRender(items, b.items);
      SameBreaksRender(rest, b.rest);
  }

  lemma {:induction false} SameItemBreaksRender(a: Items, b: Items)
    requires SameItemBreaks(a, b)
    ensures Breaks(RenderItems(a)) <==> Breaks(RenderItems(b))
    ensures FlatGap(a) <==> FlatGap(b)
    ensures SameLineHead(a) <==> SameLineHead(b)
  {
    if a.Item? {
      SameBreaksRender(a.body, b.body);
      SameItemBreaksRender(a.rest, b.rest);
    }
  }

  lemma {:induction false} FormattingKeepsTheHeight(a: Code, b: Code)
    requires SameBreaks(a, b)
    ensures Height(a) == Height(b)
  {
    match a
    case End =>
    case Text(_, rest) => FormattingKeepsTheHeight(rest, b.rest);
    case Group(_, _, items, rest) =>
      SameItemBreaksRender(items, b.items);
      FormattingKeepsItemsHeight(items, b.items);
      FormattingKeepsTheHeight(rest, b.rest);
  }

  lemma {:induction false} FormattingKeepsItemsHeight(a: Items, b: Items)
    requires SameItemBreaks(a, b)
    ensures ItemsHeight(a) == ItemsHeight(b)
  {
    if a.Item? {
      FormattingKeepsTheHeight(a.body, b.body);
      FormattingKeepsItemsHeight(a.rest, b.rest);
    }
  }

  lemma {:induction false} FormattingKeepsTheVerdicts(a: Code, b: Code, around: nat)
    requires SameBreaks(a, b)
    ensures Verdicts(a) == Verdicts(b) && Depths(a, around) == Depths(b, around)
  {
    match a
    case End =>
    case Text(_, rest) => FormattingKeepsTheVerdicts(rest, b.rest, around);
    case Group(_, trailing, items, rest) =>
      SameItemBreaksRender(items, b.items);
      FormattingKeepsItemVerdicts(items, b.items, around + (if Violates(trailing, items) then 1 else 0));
      FormattingKeepsTheVerdicts(rest, b.rest, around);
  }

  lemma {:induction false} FormattingKeepsItemVerdicts(a: Items, b: Items, around: nat)
    requires SameItemBreaks(a, b)
    ensures ItemVerdicts(a) == ItemVerdicts(b) && ItemDepths(a, around) == ItemDepths(b, around)
  {
    if a.Item? {
      FormattingKeepsTheVerdicts(a.body, b.body, around);
      FormattingKeepsItemVerdicts(a.rest, b.rest, around);
    }
  }
}
