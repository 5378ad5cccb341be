/** The stored cursor: internal/postgres/checkpoint.go over the upsert of queries.sql. */
module Checkpoints {
  import opened Options
  import opened Positions
  import opened Protocol
  import opened Cursors
  import opened Numbers

  datatype Progress = Progress(cursor: Cursor, savedAt: Instant)

  /** `txn` is null in a row written before the transaction column existed. */
  datatype Row = Row(txn: Option<nat>, through: Instant, lastId: Id, savedAt: Instant)

  /** A timestamptz column keeps microseconds. */
  function Micros(t: Instant): (r: Instant)
    ensures r <= t < r + 1000 && r % 1000 == 0
  {
    t / 1000 * 1000
  }

  function Loaded(row: Option<Row>): Progress {
    match row
    case None => Progress(Cursor(0, "", ZERO_TIME), ZERO_TIME)
    case Some(r) =>
      Progress(
        if r.txn.Some? then Cursor(r.txn.value, r.lastId, r.through) else Cursor(0, "", r.through),
        r.savedAt)
  }

  predicate Accepted(c: Cursor) {
    c.txn <= MAX_INT64
  }

  function Upserted(row: Option<Row>, c: Cursor, now: Instant): Row {
    Row(Some(c.txn), if row.Some? then Max(row.value.through, Micros(c.through)) else Micros(c.through), c.lastId, now)
  }

  function Saved(row: Option<Row>, c: Cursor, now: Instant): Option<Row> {
    if Accepted(c) then Some(Upserted(row, c, now)) else row
  }

  class Checkpoint {
    var row: Option<Row>

    constructor ()
      ensures row == None
    {
      row := None;
    }

    method Load(fate: Fate) returns (ok: bool, progress: Progress)
      ensures ok <==> fate.Done?
      ensures ok ==> progress == Loaded(row)
    {
      progress := Progress(Cursor(0, "", ZERO_TIME), ZERO_TIME);
      if fate.Lost? {
        return false, progress;
      }
      ok := true;
      if row.None? {
        return;
      }
      var r := row.value;
      if r.txn.Some? {
        progress := progress.(cursor := Cursor(r.txn.value, r.lastId, ZERO_TIME));
      }
      progress := progress.(cursor := progress.cursor.(through := r.through));
      progress := progress.(savedAt := r.savedAt);
    }

    /** A statement that fails may still have been carried out; a cursor too large for the column never reaches it. */
    method Save(c: Cursor, now: Instant, fate: Fate) returns (ok: bool)
      modifies this
      ensures ok <==> c.txn <= MAX_INT64 && fate.Done?
      ensures row == if c.txn <= MAX_INT64 && (fate.Done? || fate.applied) then Some(Upserted(old(row), c, now)) else old(row)
      ensures Place(Loaded(row).cursor)
              == if c.txn <= MAX_INT64 && (fate.Done? || fate.applied) then Place(c) else old(Place(Loaded(row).cursor))
      ensures Loaded(row).cursor.through >= old(Loaded(row).cursor.through)
      ensures ok ==> Loaded(row).cursor.through >= Micros(c.through)
    {
      if c.txn > MAX_INT64 {
        return false;
      }
      ok := fate.Done?;
      if fate.Lost? && !fate.applied {
        return;
      }
      if row.None? {
        row := Some(Row(Some(c.txn), Micros(c.through), c.lastId, now));
      } else {
        row := Some(row.value.(txn := Some(c.txn), lastId := c.lastId, savedAt := now,
                               through := Max(row.value.through, Micros(c.through))));
      }
    }
  }

  // ---- whole runs of saves ----

  datatype Saving = Saving(cursor: Cursor, now: Instant)

  function After(row: Option<Row>, saves: seq<Saving>): Option<Row>
    decreases |saves|
  {
    if saves == [] then row
    else
      var n := |saves| - 1;
      Saved(After(row, saves[..n]), saves[n].cursor, saves[n].now)
  }

  ghost predicate NoneAccepted(saves: seq<Saving>, from: nat) {
    forall i | from <= i < |saves| :: !Accepted(saves[i].cursor)
  }

  /** Load answers the last accepted cursor, whatever row the run started from. */
  lemma {:induction false} LoadAnswersTheLastAcceptedSave(row: Option<Row>, saves: seq<Saving>, k: nat)
    requires k < |saves| && Accepted(saves[k].cursor) && NoneAccepted(saves, k + 1)
    ensures Place(Loaded(After(row, saves)).cursor) == Place(saves[k].cursor)
    ensures Loaded(After(row, saves)).savedAt == saves[k].now
    decreases |saves|
  {
    if k < |saves| - 1 {
      LoadAnswersTheLastAcceptedSave(row, saves[..|saves| - 1], k);
    }
  }

  lemma {:induction false} RefusedSavesChangeNothing(row: Option<Row>, saves: seq<Saving>)
    requires NoneAccepted(saves, 0)
    ensures After(row, saves) == row
    decreases |saves|
  {
    if saves != [] {
      RefusedSavesChangeNothing(row, saves[..|saves| - 1]);
    }
  }

  /** No row, and a row from before transactions were kept, start the walk over; the latter keeps what it knew. */
  lemma OldRowsStartOver(row: Row)
    requires row.txn.None?
    ensures Place(Loaded(Some(row)).cursor) == START == Place(Loaded(None).cursor)
    ensures Loaded(Some(row)).cursor.through == row.through && Loaded(Some(row)).savedAt == row.savedAt
    ensures Loaded(None).cursor.through == Loaded(None).savedAt == ZERO_TIME
  {
  }

  /** The watermark is the greatest of the one it started with and those saved since. */
  lemma {:induction false} TheWatermarkIsTheMaximum(row: Option<Row>, saves: seq<Saving>)
    ensures var high := Loaded(After(row, saves)).cursor.through;
            && Loaded(row).cursor.through <= high
            && (forall i | 0 <= i < |saves| && Accepted(saves[i].cursor) :: Micros(saves[i].cursor.through) <= high)
            && (high == Loaded(row).cursor.through
                || exists i :: 0 <= i < |saves| && Accepted(saves[i].cursor) && high == Micros(saves[i].cursor.through))
    decreases |saves|
  {
    if saves != [] {
      var n := |saves| - 1;
      TheWatermarkIsTheMaximum(row, saves[..n]);
      var high := Loaded(After(row, saves[..n])).cursor.through;
      if high != Loaded(row).cursor.through {
        var i :| 0 <= i < n && Accepted(saves[..n][i].cursor) && high == Micros(saves[..n][i].cursor.through);
        assert saves[i] == saves[..n][i];
      }
      assert forall i | 0 <= i < n :: saves[i] == saves[..n][i];
    }
  }

  /** Neither the row a run started from nor an accepted save before the k-th had a later watermark than it. */
  ghost predicate NoneAhead(row: Option<Row>, saves: seq<Saving>, k: nat)
    requires k < |saves|
  {
    && Loaded(row).cursor.through <= Micros(saves[k].cursor.through)
    && forall i | 0 <= i < k && Accepted(saves[i].cursor) :: Micros(saves[i].cursor.through) <= Micros(saves[k].cursor.through)
  }

  /**
   The watermark is that of the stored cursor exactly when no earlier accepted cursor was further on; otherwise it
   promises more than the walk to the stored cursor has covered.
   */
  lemma TheWatermarkIsCoveredExactly(row: Option<Row>, saves: seq<Saving>, k: nat)
    requires k < |saves| && Accepted(saves[k].cursor) && NoneAccepted(saves, k + 1)
    ensures var high, covered := Loaded(After(row, saves)).cursor.through, Micros(saves[k].cursor.through);
            && high >= covered
            && (high == covered <==> NoneAhead(row, saves, k))
  {
    TheWatermarkIsTheMaximum(row, saves);
    assert forall i | 0 <= i < |saves| && Accepted(saves[i].cursor) :: i <= k;
  }

  // ---- what a search reports of it (internal/querying/finder.go) ----

  datatype Freshness = Freshness(synced: bool, indexedThrough: Instant, age: int, stale: bool)

  function Fresh(progress: Progress, now: Instant, staleAfter: int): Freshness {
    if progress.savedAt == ZERO_TIME then Freshness(false, ZERO_TIME, 0, true)
    else
      var age := now - progress.savedAt;
      Freshness(true, progress.cursor.through, age, age > staleAfter)
  }

  lemma {:induction false} AfterInParts(row: Option<Row>, first: seq<Saving>, then': seq<Saving>)
    ensures After(row, first + then') == After(After(row, first), then')
    decreases |then'|
  {
    if then' == [] {
      assert first + then' == first;
    } else {
      var n := |then'| - 1;
      assert (first + then')[..|first + then'| - 1] == first + then'[..n];
      AfterInParts(row, first, then'[..n]);
    }
  }

  lemma {:induction false} SyncedStaysSynced(row: Option<Row>, saves: seq<Saving>)
    requires forall i | 0 <= i < |saves| :: saves[i].now > ZERO_TIME
    requires Loaded(row).savedAt > ZERO_TIME
    ensures Loaded(After(row, saves)).savedAt > ZERO_TIME
    decreases |saves|
  {
    if saves != [] {
      SyncedStaysSynced(row, saves[..|saves| - 1]);
    }
  }

  /** What Find reports as indexed never moves back, even when a save moves the cursor itself back. */
  lemma IndexedThroughNeverMovesBack(
      row: Option<Row>, first: seq<Saving>, later: seq<Saving>, now: Instant, then': Instant, staleAfter: int)
    requires forall i | 0 <= i < |first| :: first[i].now > ZERO_TIME
    requires forall i | 0 <= i < |later| :: later[i].now > ZERO_TIME
    ensures var before := Fresh(Loaded(After(row, first)), now, staleAfter);
            var after := Fresh(Loaded(After(row, first + later)), then', staleAfter);
            before.indexedThrough <= after.indexedThrough && (before.synced ==> after.synced)
  {
    AfterInParts(row, first, later);
    TheWatermarkIsTheMaximum(After(row, first), later);
    if Loaded(After(row, first)).savedAt > ZERO_TIME {
      SyncedStaysSynced(After(row, first), later);
    }
  }

  /** A rebuild that stores a cursor behind the stored one is reported as covering what only the old generation had. */
  lemma ARebuildBehindOverstates(now: Instant, staleAfter: int)
    requires now > ZERO_TIME
    ensures var row := After(None, [Saving(Cursor(5, "b", 9000), now), Saving(Cursor(3, "a", 4000), now)]);
            && Place(Loaded(row).cursor) == Position(3, "a")
            && Fresh(Loaded(row), now, staleAfter).indexedThrough == Micros(9000) > Micros(4000)
  {
    var ahead, behind := Saving(Cursor(5, "b", 9000), now), Saving(Cursor(3, "a", 4000), now);
    assert [ahead, behind][..1] == [ahead] && [ahead][..0] == [];
    assert After(None, []) == None;
  }
}
