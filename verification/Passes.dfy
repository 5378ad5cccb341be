/** One uninterrupted pass over a source that keeps still: when it can succeed, and what it makes of the systems. */
module Passes {
  import opened Positions
  import opened Options
  import opened Protocol
  import opened Paging
  import opened Indexes

  /** A pass over the rows after `cur` has somewhere to write them and can store every cursor it reaches. */
  ghost predicate Indexable(t: Table, cur: Position, live: Option<Gen>) {
    forall id | id in t && Below(cur, Key(t, id)) :: Storable(Key(t, id)) && (Wanted(t, id) ==> live.Some?)
  }

  /** What a page asks of the systems is what its rows ask of them; the rest is asked by the rows after it. */
  lemma IndexablePageByPage(t: Table, cur: Position, next: Position, live: Option<Gen>)
    requires Serves(t, cur, next) && Storable(cur)
    ensures Indexable(t, cur, live) <==>
            && Storable(next) && (Upserts(t, cur, next) == map[] || live.Some?) && Indexable(t, next, live)
  {
    PositionsAreLinear();
    if Storable(next) && (Upserts(t, cur, next) == map[] || live.Some?) && Indexable(t, next, live) {
      forall id | id in t && Below(cur, Key(t, id)) ensures Storable(Key(t, id)) && (Wanted(t, id) ==> live.Some?) {
        if Within(t, id, cur, next) && Wanted(t, id) {
          assert id in Upserts(t, cur, next);
        }
      }
    } else if Storable(next) && Upserts(t, cur, next) != map[] && live.None? {
      var id :| id in Upserts(t, cur, next);
      assert !Indexable(t, cur, live);
    } else if !Storable(next) {
      assert next.id in t && Below(cur, Key(t, next.id));
    }
  }

  predicate Standing(s: State, live: Option<Gen>, cur: Position) {
    live == s.alias && cur == s.saved && (live.Some? ==> live.value in s.gens) && Storable(cur)
  }

  /** From here to the end the pass does what it did from `start`. */
  ghost predicate SamePass(t: Table, start: Position, content: Content, s: State, cur: Position, limit: nat)
    requires limit > 0
  {
    && (Indexable(t, start, s.alias) <==> Indexable(t, cur, s.alias))
    && OnceFrom(t, cur, limit, LiveContent(s)) == OnceFrom(t, start, limit, content)
  }

  lemma ATurnOfThePass(t: Table, start: Position, content: Content, s: State, s': State, cur: Position, limit: nat)
    requires limit > 0 && Standing(s, s.alias, cur) && SamePass(t, start, content, s, cur, limit)
    requires var page := PageOf(t, cur, Reached(t, cur, limit));
             && (page.upserted == map[] || s.alias.Some?) && Storable(page.next)
             && s'.gens == Emptied(Filled(s.gens, s.alias, page.upserted), s.alias, page.removed)
             && s'.alias == s.alias && s'.saved == page.next
    ensures var next := Reached(t, cur, limit);
            && Standing(s', s.alias, next)
            && (Beyond(t, next) ==> SamePass(t, start, content, s', next, limit))
            && (!Beyond(t, next) ==> Indexable(t, start, s.alias)
                                     && (LiveContent(s'), next) == OnceFrom(t, start, limit, content))
  {
    var page := PageOf(t, cur, Reached(t, cur, limit));
    PagesAdvance(t, cur, limit);
    IndexablePageByPage(t, cur, page.next, s.alias);
    assert LiveContent(s') == LiveContent(s) + page.upserted - page.removed;
  }

  lemma ATurnThatFails(t: Table, start: Position, content: Content, s: State, cur: Position, limit: nat)
    requires limit > 0 && Standing(s, s.alias, cur) && SamePass(t, start, content, s, cur, limit)
    requires var page := PageOf(t, cur, Reached(t, cur, limit));
             !Storable(page.next) || (page.upserted != map[] && s.alias.None?)
    ensures !Indexable(t, start, s.alias)
  {
    PagesAdvance(t, cur, limit);
    IndexablePageByPage(t, cur, Reached(t, cur, limit), s.alias);
  }
}
