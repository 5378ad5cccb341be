/** The order the sources page by: transaction first, record id second. */
module Positions {

  type Id = string

  /** The part of a cursor that names a place in the walk (search.Cursor without its watermark). */
  datatype Position = Position(txn: nat, id: Id)

  const START := Position(0, "")

  predicate StringBelow(a: string, b: string)
    decreases |a|
  {
    if |b| == 0 then false
    else if |a| == 0 then true
    else a[0] < b[0] || (a[0] == b[0] && StringBelow(a[1..], b[1..]))
  }

  predicate Below(a: Position, b: Position) {
    a.txn < b.txn || (a.txn == b.txn && StringBelow(a.id, b.id))
  }

  predicate AtMost(a: Position, b: Position) {
    a == b || Below(a, b)
  }

  function Later(a: Position, b: Position): Position {
    if Below(a, b) then b else a
  }

  lemma {:induction false} StringBelowIsTransitive(a: string, b: string, c: string)
    requires StringBelow(a, b) && StringBelow(b, c)
    ensures StringBelow(a, c)
    decreases |a|
  {
    if |a| > 0 && a[0] == b[0] == c[0] {
      StringBelowIsTransitive(a[1..], b[1..], c[1..]);
    }
  }

  lemma {:induction false} StringBelowIsLinear(a: string, b: string)
    ensures a == b <==> !StringBelow(a, b) && !StringBelow(b, a)
    ensures !(StringBelow(a, b) && StringBelow(b, a))
    decreases |a|
  {
    if |a| > 0 && |b| > 0 {
      StringBelowIsLinear(a[1..], b[1..]);
      assert a == [a[0]] + a[1..] && b == [b[0]] + b[1..];
    }
  }

  /** Positions are linearly ordered, and only an empty id can sit at or below the start. */
  lemma PositionsAreLinear()
    ensures forall a: Position, b: Position, c: Position {:trigger Below(a, b), Below(b, c)} ::
              Below(a, b) && Below(b, c) ==> Below(a, c)
    ensures forall a: Position, b: Position {:trigger Below(a, b)} :: a == b || Below(a, b) || Below(b, a)
    ensures forall a: Position, b: Position {:trigger Below(a, b)} :: Below(a, b) ==> a != b && !Below(b, a)
    ensures forall a: Position {:trigger Below(a, START)} :: !Below(a, START)
    ensures forall a: Position {:trigger Below(START, a)} :: a.id != "" ==> Below(START, a)
  {
    forall a, b, c | Below(a, b) && Below(b, c) ensures Below(a, c) {
      if a.txn == b.txn == c.txn {
        StringBelowIsTransitive(a.id, b.id, c.id);
      }
    }
    forall a: Position, b: Position
      ensures a == b || Below(a, b) || Below(b, a)
      ensures Below(a, b) ==> a != b && !Below(b, a)
    {
      StringBelowIsLinear(a.id, b.id);
    }
  }
}
