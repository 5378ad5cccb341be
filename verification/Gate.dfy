/** The count a walk is held to before its generation is promoted: internal/indexing/reindexer.go. */
module Gate {
  import opened Positions
  import opened Protocol
  import opened Safety
  import opened Settling
  import opened Paging

  function First(dropped: seq<set<Id>>): set<Id> {
    if dropped == [] then {} else dropped[0]
  }

  function Rest(dropped: seq<set<Id>>): seq<set<Id>> {
    if dropped == [] then [] else dropped[1..]
  }

  /** A walk over a source that keeps still, in which the engine may drop documents of a page it says it imported. */
  ghost function WalkFrom(
      t: Table, cur: Position, limit: nat, content: Content, tally: Tally, dropped: seq<set<Id>>): (Content, Position, Tally)
    requires limit > 0
    decreases |Rows(t, cur)|
  {
    var page := PageOf(t, cur, Reached(t, cur, limit));
    var content' := content + (page.upserted - First(dropped));
    var tally' := Counted(tally, page);
    if page.more then
      assert Beyond(t, cur) by { PagesAdvance(t, cur, limit); }
      WalkShrinks(t, cur, limit);
      WalkFrom(t, page.next, limit, content', tally', Rest(dropped))
    else (content', page.next, tally')
  }

  /** Every row a walk from the start is to be served; only an empty identifier could sit at the start itself. */
  ghost predicate StartsBelow(t: Table) {
    forall id | id in t && t[id].alive :: Below(START, Key(t, id))
  }

  lemma WithinSplits(t: Table, id: Id, cur: Position, next: Position, end: Position)
    requires id in t && AtMost(cur, next) && AtMost(next, end)
    ensures Within(t, id, cur, end) <==> Within(t, id, cur, next) || Within(t, id, next, end)
    ensures !(Within(t, id, cur, next) && Within(t, id, next, end))
  {
    PositionsAreLinear();
  }

  lemma InTwoParts<T>(whole: set<T>, a: set<T>, b: set<T>)
    requires whole == a + b && a !! b
    ensures |whole| == |a| + |b|
  {
  }

  lemma UpsertedInTwoParts(t: Table, cur: Position, next: Position, end: Position)
    requires AtMost(cur, next) && AtMost(next, end)
    ensures Upserts(t, cur, end).Keys == Upserts(t, cur, next).Keys + Upserts(t, next, end).Keys
    ensures Upserts(t, cur, next).Keys !! Upserts(t, next, end).Keys
  {
    forall id | id in t {
      WithinSplits(t, id, cur, next, end);
    }
  }

  lemma UpsertsInTwoParts(t: Table, cur: Position, next: Position, end: Position)
    requires AtMost(cur, next) && AtMost(next, end)
    ensures |Upserts(t, cur, end)| == |Upserts(t, cur, next)| + |Upserts(t, next, end)|
  {
    UpsertedInTwoParts(t, cur, next, end);
    InTwoParts(Upserts(t, cur, end).Keys, Upserts(t, cur, next).Keys, Upserts(t, next, end).Keys);
  }

  lemma RefusalsInTwoParts(t: Table, cur: Position, next: Position, end: Position)
    requires AtMost(cur, next) && AtMost(next, end)
    ensures |Refusals(t, cur, end)| == |Refusals(t, cur, next)| + |Refusals(t, next, end)|
  {
    forall id | id in t {
      WithinSplits(t, id, cur, next, end);
    }
    InTwoParts(Refusals(t, cur, end), Refusals(t, cur, next), Refusals(t, next, end));
  }

  lemma FurtherEnd(t: Table, cur: Position, next: Position, end: Position)
    requires AtMost(cur, next) && IsEnd(t, next, end) && (next == cur || (next.id in t && next == Key(t, next.id)))
    ensures IsEnd(t, cur, end) && AtMost(cur, end) && AtMost(next, end)
  {
    PositionsAreLinear();
  }

  lemma EndsHere(t: Table, cur: Position, next: Position)
    requires Serves(t, cur, next) && !Beyond(t, next)
    ensures IsEnd(t, cur, next)
  {
    PositionsAreLinear();
  }

  function Tallied(t: Table, cur: Position, end: Position, tally: Tally): Tally {
    Tally(tally.sent + |Upserts(t, cur, end)|, tally.refused + |Refusals(t, cur, end)|, tally.total)
  }

  lemma TalliedPageByPage(t: Table, cur: Position, next: Position, end: Position, tally: Tally)
    requires AtMost(cur, next) && AtMost(next, end)
    ensures Tallied(t, cur, end, tally) == Tallied(t, next, end, Counted(tally, PageOf(t, cur, next)))
  {
    UpsertsInTwoParts(t, cur, next, end);
    RefusalsInTwoParts(t, cur, next, end);
  }

  lemma {:induction false} WalkEnds(
      t: Table, cur: Position, limit: nat, content: Content, tally: Tally, dropped: seq<set<Id>>)
    requires limit > 0
    ensures IsEnd(t, cur, WalkFrom(t, cur, limit, content, tally, dropped).1)
    decreases |Rows(t, cur)|
  {
    PagesAdvance(t, cur, limit);
    var page := PageOf(t, cur, Reached(t, cur, limit));
    if page.more {
      WalkShrinks(t, cur, limit);
      WalkEnds(t, page.next, limit, content + (page.upserted - First(dropped)), Counted(tally, page), Rest(dropped));
      FurtherEnd(t, cur, page.next, WalkFrom(t, cur, limit, content, tally, dropped).1);
    } else {
      EndsHere(t, cur, page.next);
    }
  }

  /** The tally counts every accepted and every refused row once, whatever the page size and whatever is dropped. */
  lemma {:induction false} WalkTallies(
      t: Table, cur: Position, limit: nat, content: Content, tally: Tally, dropped: seq<set<Id>>)
    requires limit > 0
    ensures var walk := WalkFrom(t, cur, limit, content, tally, dropped); walk.2 == Tallied(t, cur, walk.1, tally)
    decreases |Rows(t, cur)|
  {
    var page := PageOf(t, cur, Reached(t, cur, limit));
    if page.more {
      var content', tally' := content + (page.upserted - First(dropped)), Counted(tally, page);
      PagesAdvance(t, cur, limit);
      WalkShrinks(t, cur, limit);
      WalkTallies(t, page.next, limit, content', tally', Rest(dropped));
      WalkEnds(t, page.next, limit, content', tally', Rest(dropped));
      var end := WalkFrom(t, cur, limit, content, tally, dropped).1;
      FurtherEnd(t, cur, page.next, end);
      TalliedPageByPage(t, cur, page.next, end, tally);
    }
  }

  /** A dropped document is only ever missing: what is there is there in its current version. */
  lemma {:induction false} WalkBuildsPartOf(
      t: Table, cur: Position, limit: nat, content: Content, tally: Tally, dropped: seq<set<Id>>)
    requires limit > 0 && forall id | id in content :: id in Listing(t) && content[id] == Listing(t)[id]
    ensures var content' := WalkFrom(t, cur, limit, content, tally, dropped).0;
            forall id | id in content' :: id in Listing(t) && content'[id] == Listing(t)[id]
    decreases |Rows(t, cur)|
  {
    var page := PageOf(t, cur, Reached(t, cur, limit));
    var content' := content + (page.upserted - First(dropped));
    assert forall id | id in content' :: id in Listing(t) && content'[id] == Listing(t)[id];
    if page.more {
      PagesAdvance(t, cur, limit);
      WalkShrinks(t, cur, limit);
      WalkBuildsPartOf(t, page.next, limit, content', Counted(tally, page), Rest(dropped));
      assert WalkFrom(t, cur, limit, content, tally, dropped)
          == WalkFrom(t, page.next, limit, content', Counted(tally, page), Rest(dropped));
    }
  }

  lemma ServedUnlessAtStart(t: Table, id: Id, end: Position)
    requires IsEnd(t, START, end) && id in t
    ensures Within(t, id, START, end) <==> Key(t, id) != START
    ensures Below(START, Key(t, id)) <==> Key(t, id) != START
  {
    PositionsAreLinear();
  }

  /** The whole walk accepts the listing and refuses every other row that is alive. */
  lemma WholeWalk(t: Table, end: Position)
    requires IsEnd(t, START, end)
    ensures Upserts(t, START, end) == Listing(t)
    ensures Alive(t) == Listing(t).Keys + Refusals(t, START, end) + AtStart(t)
  {
    forall id | id in t {
      ServedUnlessAtStart(t, id, end);
    }
  }

  ghost function AtStart(t: Table): set<Id> {
    if StartsBelow(t) then {} else {""}
  }

  lemma WholeCount(t: Table, end: Position)
    requires IsEnd(t, START, end)
    ensures |Alive(t)| == |Listing(t)| + |Refusals(t, START, end)| + |AtStart(t)|
  {
    WholeWalk(t, end);
    var served := Listing(t).Keys + Refusals(t, START, end);
    InTwoParts(served, Listing(t).Keys, Refusals(t, START, end));
    InTwoParts(Alive(t), served, AtStart(t));
  }

  predicate GetsThrough(content: Content, countable: bool, tally: Tally) {
    |content| >= Expected(countable, tally)
  }

  lemma AllOrLess(content: Content, whole: Content)
    requires forall id | id in content :: id in whole && content[id] == whole[id]
    ensures |content| <= |whole|
    ensures |content| == |whole| <==> content == whole
  {
    assert content.Keys <= whole.Keys;
    Smaller(content.Keys, whole.Keys);
  }

  lemma WholeTally(t: Table, limit: nat, total: nat, dropped: seq<set<Id>>)
    requires limit > 0
    ensures var (content, _, tally) := WalkFrom(t, START, limit, map[], Tally(0, 0, total), dropped);
            && (forall id | id in content :: id in Listing(t) && content[id] == Listing(t)[id])
            && tally.sent == |Listing(t)|
            && |Alive(t)| - tally.refused == |Listing(t)| + |AtStart(t)|
            && tally.total == total
  {
    WalkEnds(t, START, limit, map[], Tally(0, 0, total), dropped);
    WalkTallies(t, START, limit, map[], Tally(0, 0, total), dropped);
    WalkBuildsPartOf(t, START, limit, map[], Tally(0, 0, total), dropped);
    WholeWalk(t, WalkFrom(t, START, limit, map[], Tally(0, 0, total), dropped).1);
    WholeCount(t, WalkFrom(t, START, limit, map[], Tally(0, 0, total), dropped).1);
  }

  /** Against the source's own count, dropping documents unnoticed passes the gate only if nothing stayed dropped. */
  lemma CountableGate(t: Table, limit: nat, dropped: seq<set<Id>>)
    requires limit > 0
    ensures var (content, _, tally) := WalkFrom(t, START, limit, map[], Tally(0, 0, |Alive(t)|), dropped);
            GetsThrough(content, true, tally) <==> content == Listing(t) && StartsBelow(t)
  {
    WholeTally(t, limit, |Alive(t)|, dropped);
    AllOrLess(WalkFrom(t, START, limit, map[], Tally(0, 0, |Alive(t)|), dropped).0, Listing(t));
  }

  /** So does the walk's own count while the source keeps still. */
  lemma UncountableGate(t: Table, limit: nat, dropped: seq<set<Id>>)
    requires limit > 0
    ensures var (content, _, tally) := WalkFrom(t, START, limit, map[], Tally(0, 0, 0), dropped);
            GetsThrough(content, false, tally) <==> content == Listing(t)
  {
    WholeTally(t, limit, 0, dropped);
    AllOrLess(WalkFrom(t, START, limit, map[], Tally(0, 0, 0), dropped).0, Listing(t));
  }

  lemma {:induction false} NothingDropped(t: Table, cur: Position, limit: nat, content: Content, tally: Tally)
    requires limit > 0
    ensures WalkFrom(t, cur, limit, content, tally, []) == RunFrom(t, cur, limit, content, tally)
    decreases |Rows(t, cur)|
  {
    var page := PageOf(t, cur, Reached(t, cur, limit));
    assert page.upserted - {} == page.upserted;
    if page.more {
      PagesAdvance(t, cur, limit);
      WalkShrinks(t, cur, limit);
      NothingDropped(t, page.next, limit, content + page.upserted, Counted(tally, page));
    }
  }

  /** Every cursor a walk of the whole source reaches fits the checkpoint. */
  ghost predicate FitsTheCheckpoint(t: Table) {
    forall id | id in t && Below(START, Key(t, id)) :: Storable(Key(t, id))
  }

  lemma TheEndFits(t: Table, end: Position)
    requires IsEnd(t, START, end)
    ensures Storable(end) <==> FitsTheCheckpoint(t)
  {
    PositionsAreLinear();
    if Storable(end) {
      forall id | id in t && Below(START, Key(t, id)) ensures Storable(Key(t, id)) {
        assert !Below(end, Key(t, id));
      }
    }
  }

  /** A walk that drops nothing, over a source that keeps still, builds the listing and passes the gate. */
  lemma AnHonestWalk(t: Table, limit: nat, countable: bool)
    requires limit > 0
    ensures var run := RunFrom(t, START, limit, map[], Tally(0, 0, if countable then |Alive(t)| else 0));
            && run.0 == Listing(t) && IsEnd(t, START, run.1)
            && (GetsThrough(run.0, countable, run.2) <==> (countable ==> StartsBelow(t)))
  {
    var tally := Tally(0, 0, if countable then |Alive(t)| else 0);
    NothingDropped(t, START, limit, map[], tally);
    WalkEnds(t, START, limit, map[], tally, []);
    RunAndOnceAgree(t, limit, limit, tally);
    if countable {
      CountableGate(t, limit, []);
    } else {
      UncountableGate(t, limit, []);
    }
  }

  // ---- a source that changes during the walk, and an engine that drops documents unnoticed ----

  /** A page as the source served it at its moment, and what the engine dropped of it. */
  datatype Served = Served(page: Page, dropped: set<Id>)

  /** What is in the generation after the pages, and what the walk has counted and recorded of them. */
  function ContentOver(pages: seq<Served>): Content {
    if pages == [] then map[]
    else var last := pages[|pages| - 1]; ContentOver(pages[..|pages| - 1]) + (last.page.upserted - last.dropped)
  }

  function TallyOver(pages: seq<Served>, total: nat): Tally {
    if pages == [] then Tally(0, 0, total) else Counted(TallyOver(pages[..|pages| - 1], total), pages[|pages| - 1].page)
  }

  function WalkOver(pages: seq<Served>, counted: set<Id>): Walk {
    if pages == [] then Begun(counted) else Extended(WalkOver(pages[..|pages| - 1], counted), pages[|pages| - 1].page)
  }

  lemma {:induction false} OverPages(pages: seq<Served>, counted: set<Id>)
    ensures TallyHolds(TallyOver(pages, |counted|), WalkOver(pages, counted))
    ensures ContentOver(pages).Keys <= WalkOver(pages, counted).built.Keys && WalkOver(pages, counted).counted == counted
    decreases |pages|
  {
    if pages != [] {
      var before, page := pages[..|pages| - 1], pages[|pages| - 1].page;
      OverPages(before, counted);
      TallyExtends(TallyOver(before, |counted|), WalkOver(before, counted), page);
    }
  }

  /** The ids handed to the walk again are those that two of its pages upsert. */
  lemma {:induction false} AgainIsTwice(pages: seq<Served>, counted: set<Id>, id: Id)
    ensures id in WalkOver(pages, counted).built <==> exists i :: 0 <= i < |pages| && id in pages[i].page.upserted
    ensures id in WalkOver(pages, counted).again <==>
            exists i, j :: 0 <= i < j < |pages| && id in pages[i].page.upserted && id in pages[j].page.upserted
    decreases |pages|
  {
    if pages != [] {
      var n := |pages| - 1;
      AgainIsTwice(pages[..n], counted, id);
      assert forall i | 0 <= i < n :: pages[..n][i] == pages[i];
      if id in WalkOver(pages[..n], counted).built && id in pages[n].page.upserted {
        var i :| 0 <= i < n && id in pages[..n][i].page.upserted;
        assert id in pages[i].page.upserted && id in pages[n].page.upserted;
      }
    }
  }

  /** Whatever the source serves: the walk's own count passes exactly when no id was sent twice and all that was sent landed. */
  lemma AnyWalkGate(pages: seq<Served>)
    ensures GetsThrough(ContentOver(pages), false, TallyOver(pages, 0)) <==>
            WalkOver(pages, {}).again == {} && ContentOver(pages).Keys == WalkOver(pages, {}).built.Keys
  {
    OverPages(pages, {});
    Smaller(ContentOver(pages).Keys, WalkOver(pages, {}).built.Keys);
  }

  /**
   Against the source's count it passes exactly when the counted rows that are not in the generation are no more than
   the refusals and the rows in the generation that had not been counted.
   */
  lemma AnyCountedWalkGate(pages: seq<Served>, counted: set<Id>)
    ensures var held := ContentOver(pages).Keys;
            GetsThrough(ContentOver(pages), true, TallyOver(pages, |counted|)) <==>
            |counted - held| <= |held - counted| + TallyOver(pages, |counted|).refused
  {
    OverPages(pages, counted);
    var held := ContentOver(pages).Keys;
    assert |held - counted| == |held| - |held * counted| && |counted - held| == |counted| - |counted * held|;
    assert held * counted == counted * held;
  }

  lemma OverOnePage(served: Served, total: nat)
    ensures ContentOver([served]) == served.page.upserted - served.dropped
    ensures TallyOver([served], total) == Counted(Tally(0, 0, total), served.page)
  {
    assert [served][..0] == [];
    assert map[] + (served.page.upserted - served.dropped) == served.page.upserted - served.dropped;
  }

  const COUNTED: Table := map["a" := Record(1, true, true, "x")]
  const INSERTED: Table := COUNTED["b" := Record(2, true, true, "y")]
  const LAST := Position(2, "b")

  lemma BothRows()
    ensures Serves(INSERTED, START, LAST) && !Beyond(INSERTED, LAST) && Alive(COUNTED) == {"a"}
    ensures Upserts(INSERTED, START, LAST) == Listing(INSERTED) == map["a" := "x", "b" := "y"]
  {
    assert Key(INSERTED, "a") == Position(1, "a") && Key(INSERTED, "b") == LAST;
    assert Within(INSERTED, "a", START, LAST) && Within(INSERTED, "b", START, LAST);
  }

  /** A row inserted after the count makes up for a counted one that the engine drops: the generation passes without it. */
  lemma AnInsertionHidesADrop()
    ensures var pages := [Served(PageOf(INSERTED, START, LAST), {"a"})];
            && Serves(INSERTED, START, LAST) && !Beyond(INSERTED, LAST)
            && GetsThrough(ContentOver(pages), true, TallyOver(pages, |Alive(COUNTED)|))
            && "a" in Alive(COUNTED) && "a" in Listing(INSERTED) && "a" !in ContentOver(pages)
  {
    hide Serves, Beyond, Upserts, Alive, Listing, Refusals, Removals, ContentOver, TallyOver;
    BothRows();
    OverOnePage(Served(PageOf(INSERTED, START, LAST), {"a"}), 1);
    var whole: Content := map["a" := "x", "b" := "y"];
    assert whole - {"a"} == map["b" := "y"];
    assert |whole - {"a"}| == 1;
  }
}
