/** A walk in pages of a fixed size over a source that keeps still: it ends, and every page size gives the same result. */
module Paging {
  import opened Positions
  import opened Protocol
  import opened Settling

  function Rows(t: Table, cur: Position): set<Id> {
    set id | id in t && Below(cur, Key(t, id))
  }

  /** `id` is the next row after `cur`. */
  predicate IsNext(t: Table, cur: Position, id: Id) {
    && id in Rows(t, cur)
    && forall other | other in Rows(t, cur) :: AtMost(Key(t, id), Key(t, other))
  }

  lemma {:induction false} LeastRow(t: Table, ids: set<Id>) returns (id: Id)
    requires ids != {} && forall i | i in ids :: i in t
    ensures id in ids && forall other | other in ids :: AtMost(Key(t, id), Key(t, other))
    decreases |ids|
  {
    PositionsAreLinear();
    id :| id in ids;
    if ids != {id} {
      var rest := ids - {id};
      assert rest == {} ==> ids == {id};
      var best := LeastRow(t, rest);
      if Below(Key(t, best), Key(t, id)) {
        id := best;
      }
    }
  }

  ghost function NextRow(t: Table, cur: Position): (id: Id)
    requires Beyond(t, cur)
    ensures IsNext(t, cur, id)
  {
    NextExists(t, cur);
    var id :| IsNext(t, cur, id);
    id
  }

  lemma NextExists(t: Table, cur: Position)
    requires Beyond(t, cur)
    ensures exists id :: IsNext(t, cur, id)
  {
    var some :| some in t && Below(cur, Key(t, some));
    assert some in Rows(t, cur);
    var id := LeastRow(t, Rows(t, cur));
    assert IsNext(t, cur, id);
  }

  lemma RowsShrink(t: Table, cur: Position, id: Id)
    requires id in Rows(t, cur)
    ensures Rows(t, Key(t, id)) < Rows(t, cur)
    ensures |Rows(t, Key(t, id))| < |Rows(t, cur)|
  {
    PositionsAreLinear();
    assert Rows(t, Key(t, id)) <= Rows(t, cur) - {id};
    Smaller(Rows(t, Key(t, id)), Rows(t, cur) - {id});
  }

  lemma {:induction false} Smaller<T>(a: set<T>, b: set<T>)
    requires a <= b
    ensures |a| <= |b|
    ensures |a| == |b| ==> a == b
  {
    if a != {} {
      var x :| x in a;
      Smaller(a - {x}, b - {x});
      assert a == (a - {x}) + {x} && b == (b - {x}) + {x};
    } else if b != {} {
      assert |b| > 0;
    }
  }

  /** Where a page of at most `limit` rows ends. */
  ghost function Reached(t: Table, cur: Position, limit: nat): Position
    decreases limit
  {
    if limit == 0 || !Beyond(t, cur) then cur else Reached(t, Key(t, NextRow(t, cur)), limit - 1)
  }

  lemma {:induction false} PagesAdvance(t: Table, cur: Position, limit: nat)
    ensures AtMost(cur, Reached(t, cur, limit))
    ensures Reached(t, cur, limit) == cur
            || (Reached(t, cur, limit).id in t && Reached(t, cur, limit) == Key(t, Reached(t, cur, limit).id))
    ensures limit > 0 ==> Serves(t, cur, Reached(t, cur, limit))
    decreases limit
  {
    PositionsAreLinear();
    if limit > 0 && Beyond(t, cur) {
      PagesAdvance(t, Key(t, NextRow(t, cur)), limit - 1);
    }
  }

  function Taken(t: Table, cur: Position, end: Position): set<Id> {
    Rows(t, cur) - Rows(t, end)
  }

  lemma OneRowMore(t: Table, cur: Position, id: Id, end: Position)
    requires IsNext(t, cur, id) && AtMost(Key(t, id), end)
    ensures |Taken(t, cur, end)| == |Taken(t, Key(t, id), end)| + 1
  {
    PositionsAreLinear();
    assert Taken(t, cur, end) == Taken(t, Key(t, id), end) + {id};
    assert id !in Taken(t, Key(t, id), end);
  }

  /** A page of at most `limit` rows: exactly `limit` while there are more. */
  lemma {:induction false} PagesAreFull(t: Table, cur: Position, limit: nat, end: Position)
    requires end == Reached(t, cur, limit)
    ensures |Taken(t, cur, end)| <= limit
    ensures Beyond(t, end) ==> |Taken(t, cur, end)| == limit
    decreases limit
  {
    if limit > 0 && Beyond(t, cur) {
      var id := NextRow(t, cur);
      PagesAreFull(t, Key(t, id), limit - 1, end);
      PagesAdvance(t, Key(t, id), limit - 1);
      OneRowMore(t, cur, id, end);
    } else {
      assert Taken(t, cur, cur) == {};
    }
  }

  lemma MoreMeansMore(t: Table, cur: Position, limit: nat)
    requires Beyond(t, Reached(t, cur, limit))
    ensures Beyond(t, cur)
  {
    PositionsAreLinear();
    PagesAdvance(t, cur, limit);
  }

  lemma WalkShrinks(t: Table, cur: Position, limit: nat)
    requires limit > 0 && Beyond(t, cur)
    ensures |Rows(t, Reached(t, cur, limit))| < |Rows(t, cur)|
  {
    PagesAdvance(t, cur, limit);
    RowsShrink(t, cur, Reached(t, cur, limit).id);
  }

  /** What a whole pass of Once leaves in a generation that held `content`, page by page. */
  ghost function OnceFrom(t: Table, cur: Position, limit: nat, content: Content): (Content, Position)
    requires limit > 0
    decreases |Rows(t, cur)|
  {
    var page := PageOf(t, cur, Reached(t, cur, limit));
    var content' := content + page.upserted - page.removed;
    if page.more then
      assert Beyond(t, cur) by { PagesAdvance(t, cur, limit); }
      WalkShrinks(t, cur, limit);
      OnceFrom(t, page.next, limit, content')
    else (content', page.next)
  }

  /** What the walk of Run leaves in its generation, and the tally it brings to the gate. */
  ghost function RunFrom(t: Table, cur: Position, limit: nat, content: Content, tally: Tally): (Content, Position, Tally)
    requires limit > 0
    decreases |Rows(t, cur)|
  {
    var page := PageOf(t, cur, Reached(t, cur, limit));
    var content' := content + page.upserted;
    var tally' := Counted(tally, page);
    if page.more then
      assert Beyond(t, cur) by { PagesAdvance(t, cur, limit); }
      WalkShrinks(t, cur, limit);
      RunFrom(t, page.next, limit, content', tally')
    else (content', page.next, tally')
  }

  /** The documents an index of `t` should hold. */
  function Listing(t: Table): Content {
    map id | id in t && Wanted(t, id) :: t[id].doc
  }

  /** What a page leaves pending is what lies beyond its end. */
  lemma StillPending(t: Table, cur: Position, next: Position, id: Id)
    requires AtMost(cur, next)
    ensures Pending(t, next, id) ==> Pending(t, cur, id) && !Within(t, id, cur, next)
    ensures Pending(t, cur, id) && !Pending(t, next, id) ==> Within(t, id, cur, next)
    ensures !Pending(t, cur, id) && id in t && Within(t, id, cur, next) ==> !Wanted(t, id) && t[id].alive
  {
    PositionsAreLinear();
  }

  lemma SettledInSteps(t: Table, cur: Position, next: Position, content: Content)
    requires AtMost(cur, next)
    ensures var page := PageOf(t, cur, next);
            Settled(t, content + page.upserted - page.removed, next) == Settled(t, content, cur)
  {
    hide Below, AtMost, Key;
    var page := PageOf(t, cur, next);
    var after := content + page.upserted - page.removed;
    forall id
      ensures id in Settled(t, after, next) <==> id in Settled(t, content, cur)
      ensures id in Settled(t, content, cur) ==> Settled(t, after, next)[id] == Settled(t, content, cur)[id]
    {
      StillPending(t, cur, next, id);
    }
  }

  /** Whatever the page size, a pass makes exactly the changes the source has for it and stops at its end. */
  lemma {:induction false} EveryPageSizeSettles(t: Table, cur: Position, limit: nat, content: Content)
    requires limit > 0
    ensures OnceFrom(t, cur, limit, content).0 == Settled(t, content, cur)
    ensures IsEnd(t, cur, OnceFrom(t, cur, limit, content).1)
    decreases |Rows(t, cur)|
  {
    PositionsAreLinear();
    PagesAdvance(t, cur, limit);
    var page := PageOf(t, cur, Reached(t, cur, limit));
    var content' := content + page.upserted - page.removed;
    SettledInSteps(t, cur, page.next, content);
    if page.more {
      WalkShrinks(t, cur, limit);
      EveryPageSizeSettles(t, page.next, limit, content');
    } else {
      assert forall id :: !Pending(t, page.next, id);
      assert Settled(t, content', page.next) == content';
    }
  }

  /** Content a walk has built so far: only records wanted at or before the cursor. */
  ghost predicate Built(t: Table, cur: Position, content: Content) {
    forall id | id in content :: id in t && Wanted(t, id) && AtMost(Key(t, id), cur)
  }

  lemma BuiltPage(t: Table, cur: Position, next: Position, content: Content)
    requires Built(t, cur, content) && AtMost(cur, next)
    ensures var page := PageOf(t, cur, next);
            && Built(t, next, content + page.upserted)
            && content + page.upserted - page.removed == content + page.upserted
  {
    PositionsAreLinear();
  }

  /** Run, which never applies removals, still builds what Once would build from nothing. */
  lemma {:induction false} RunBuildsWhatOnceWould(t: Table, cur: Position, limit: nat, content: Content, tally: Tally)
    requires limit > 0 && Built(t, cur, content)
    ensures RunFrom(t, cur, limit, content, tally).0 == OnceFrom(t, cur, limit, content).0
    ensures RunFrom(t, cur, limit, content, tally).1 == OnceFrom(t, cur, limit, content).1
    decreases |Rows(t, cur)|
  {
    PagesAdvance(t, cur, limit);
    var page := PageOf(t, cur, Reached(t, cur, limit));
    BuiltPage(t, cur, page.next, content);
    var content' := content + page.upserted;
    var tally' := Counted(tally, page);
    if page.more {
      WalkShrinks(t, cur, limit);
      assert RunFrom(t, cur, limit, content, tally) == RunFrom(t, page.next, limit, content', tally');
      assert OnceFrom(t, cur, limit, content) == OnceFrom(t, page.next, limit, content');
      RunBuildsWhatOnceWould(t, page.next, limit, content', tally');
    } else {
      assert RunFrom(t, cur, limit, content, tally) == (content', page.next, tally');
      assert OnceFrom(t, cur, limit, content) == (content', page.next);
    }
  }

  lemma SettledFromNothing(t: Table)
    ensures Settled(t, map[], START) == Listing(t)
  {
    PositionsAreLinear();
    forall id ensures id in Settled(t, map[], START) <==> id in Listing(t) {
    }
  }

  /** From the start and from nothing, Run and Once agree with the listing for every two page sizes. */
  lemma RunAndOnceAgree(t: Table, runLimit: nat, onceLimit: nat, tally: Tally)
    requires runLimit > 0 && onceLimit > 0
    ensures RunFrom(t, START, runLimit, map[], tally).0 == Listing(t) == OnceFrom(t, START, onceLimit, map[]).0
    ensures RunFrom(t, START, runLimit, map[], tally).1 == OnceFrom(t, START, onceLimit, map[]).1
  {
    RunBuildsWhatOnceWould(t, START, runLimit, map[], tally);
    EveryPageSizeSettles(t, START, runLimit, map[]);
    EveryPageSizeSettles(t, START, onceLimit, map[]);
    EndIsUnique(t, START, OnceFrom(t, START, runLimit, map[]).1, OnceFrom(t, START, onceLimit, map[]).1);
    SettledFromNothing(t);
  }
}
