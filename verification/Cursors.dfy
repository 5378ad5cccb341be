/** Where a walk stands and what a page of it brings: internal/search/cursor.go. */
module Cursors {
  import opened Positions

  /** Nanoseconds since Go's zero time, midnight of 1 January of year 1. */
  type Time = int
  const ZERO_TIME: Time := 0

  /** A time that is not before the zero time, as every protobuf timestamp is. */
  type Instant = t: Time | t >= 0 witness 0

  datatype Cursor = Cursor(txn: nat, lastId: Id, through: Instant)

  function Place(c: Cursor): Position {
    Position(c.txn, c.lastId)
  }

  datatype Changes<+D> = Changes(upserted: seq<D>, removed: seq<Id>, refused: seq<Id>, next: Cursor, more: bool)
}
