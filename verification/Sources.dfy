/** A source answering one page: the rows after a cursor, in order, at most `limit` of them. */
module Sources {
  import opened Positions
  import opened Protocol
  import opened Paging
  import opened Indexes
  import opened Cursors

  /** A list of changes that delivers exactly a page, each record once. */
  ghost predicate Delivers(c: Changes<Entry>, page: Page) {
    && Imported(c.upserted) == page.upserted && |c.upserted| == |page.upserted|
    && Ids(c.removed) == page.removed && |c.refused| == page.refused
    && Place(c.next) == page.next && c.more == page.more
  }

  lemma NextIsUnique(t: Table, cur: Position, id: Id)
    requires Beyond(t, cur) && IsNext(t, cur, id)
    ensures id == NextRow(t, cur)
  {
    PositionsAreLinear();
    assert Key(t, id) == Key(t, NextRow(t, cur));
  }

  lemma WithinGrows(t: Table, cur: Position, at: Position, id: Id, other: Id)
    requires AtMost(cur, at) && IsNext(t, at, id) && other in t
    ensures Within(t, other, cur, Key(t, id)) <==> Within(t, other, cur, at) || other == id
    ensures !Within(t, id, cur, at)
  {
    PositionsAreLinear();
    if Below(at, Key(t, other)) {
      assert other in Rows(t, at);
    }
  }

  /** One row later a page holds one record more, in the list its state calls for. */
  lemma UpsertsGrow(t: Table, cur: Position, at: Position, id: Id)
    requires AtMost(cur, at) && IsNext(t, at, id)
    ensures Upserts(t, cur, Key(t, id)) ==
            if Wanted(t, id) then Upserts(t, cur, at)[id := t[id].doc] else Upserts(t, cur, at)
    ensures id !in Upserts(t, cur, at)
  {
    forall other | other in t {
      WithinGrows(t, cur, at, id, other);
    }
  }

  lemma RemovalsGrow(t: Table, cur: Position, at: Position, id: Id)
    requires AtMost(cur, at) && IsNext(t, at, id)
    ensures Removals(t, cur, Key(t, id)) ==
            if t[id].alive then Removals(t, cur, at) else Removals(t, cur, at) + {id}
    ensures Refusals(t, cur, Key(t, id)) ==
            if t[id].alive && !Wanted(t, id) then Refusals(t, cur, at) + {id} else Refusals(t, cur, at)
    ensures id !in Refusals(t, cur, at)
  {
    forall other | other in t {
      WithinGrows(t, cur, at, id, other);
    }
  }

  ghost predicate Collected(
      t: Table, cur: Position, at: Position, upserted: seq<Entry>, removed: seq<Id>, refused: seq<Id>)
  {
    && Imported(upserted) == Upserts(t, cur, at) && |upserted| == |Upserts(t, cur, at)|
    && Ids(removed) == Removals(t, cur, at) && |refused| == |Refusals(t, cur, at)|
  }

  lemma CollectsUpsert(
      t: Table, cur: Position, at: Position, id: Id, upserted: seq<Entry>, removed: seq<Id>, refused: seq<Id>)
    requires Collected(t, cur, at, upserted, removed, refused)
    requires AtMost(cur, at) && IsNext(t, at, id) && Wanted(t, id)
    ensures Collected(t, cur, Key(t, id), upserted + [Entry(id, t[id].doc)], removed, refused)
  {
    UpsertsGrow(t, cur, at, id);
    RemovalsGrow(t, cur, at, id);
    assert (upserted + [Entry(id, t[id].doc)])[..|upserted|] == upserted;
  }

  lemma CollectsOther(
      t: Table, cur: Position, at: Position, id: Id, upserted: seq<Entry>, removed: seq<Id>, refused: seq<Id>)
    requires Collected(t, cur, at, upserted, removed, refused)
    requires AtMost(cur, at) && IsNext(t, at, id) && !Wanted(t, id)
    ensures t[id].alive ==> Collected(t, cur, Key(t, id), upserted, removed, refused + [id])
    ensures !t[id].alive ==> Collected(t, cur, Key(t, id), upserted, removed + [id], refused)
  {
    UpsertsGrow(t, cur, at, id);
    RemovalsGrow(t, cur, at, id);
    assert Ids(removed + [id]) == Ids(removed) + {id};
  }

  lemma NothingCollected(t: Table, cur: Position)
    ensures Collected(t, cur, cur, [], [], [])
  {
    PositionsAreLinear();
  }

  method ChangedSince(t: Table, cur: Position, limit: nat, through: Instant) returns (c: Changes<Entry>)
    requires limit > 0
    ensures Place(c.next) == Reached(t, cur, limit) && c.next.through == through
    ensures Delivers(c, PageOf(t, cur, Reached(t, cur, limit)))
  {
    var upserted: seq<Entry>, removed: seq<Id>, refused: seq<Id> := [], [], [];
    var at, n := cur, 0;
    NothingCollected(t, cur);
    while n < limit && Beyond(t, at)
      invariant n <= limit && AtMost(cur, at)
      invariant Reached(t, at, limit - n) == Reached(t, cur, limit)
      invariant Collected(t, cur, at, upserted, removed, refused)
    {
      NextExists(t, at);
      var id :| id in Rows(t, at) && IsNext(t, at, id);
      NextIsUnique(t, at, id);
      FurtherOn(cur, at, Key(t, id));
      if Wanted(t, id) {
        CollectsUpsert(t, cur, at, id, upserted, removed, refused);
        upserted := upserted + [Entry(id, t[id].doc)];
      } else if t[id].alive {
        CollectsOther(t, cur, at, id, upserted, removed, refused);
        refused := refused + [id];
      } else {
        CollectsOther(t, cur, at, id, upserted, removed, refused);
        removed := removed + [id];
      }
      at, n := Key(t, id), n + 1;
    }
    c := Changes(upserted, removed, refused, Cursor(at.txn, at.id, through), Beyond(t, at));
  }

  lemma FurtherOn(cur: Position, at: Position, next: Position)
    requires AtMost(cur, at) && Below(at, next)
    ensures AtMost(cur, next)
  {
    PositionsAreLinear();
  }
}
