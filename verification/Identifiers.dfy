/** The identifiers of internal/search/identifier.go; every kind of identifier is made by the same rule. */
module Identifiers {
  import opened Options
  import opened Texts

  const MAX_ID_LENGTH := 64

  /** The zero identifier is the empty text, and no identifier is made from one. */
  type Identifier = string

  function NewId(raw: string): (r: Result<Identifier>)
    ensures r.Ok? ==> IsId(r.value)
  {
    var trimmed := TrimSpace(raw);
    if trimmed == "" || Bytes(trimmed) > MAX_ID_LENGTH || HasControl(trimmed) then Refused else Ok(trimmed)
  }

  predicate IsId(s: string) {
    s != "" && Tight(s) && Bytes(s) <= MAX_ID_LENGTH && !HasControl(s)
  }

  /** `raw` names `id` when that is what stands between its surrounding white space. */
  ghost predicate Names(raw: string, id: Identifier) {
    IsCore(raw, id) && IsId(id)
  }

  ghost predicate NamesNothing(raw: string) {
    forall id :: !Names(raw, id)
  }

  /** An identifier is made exactly of a text that names it, and a text that names none is refused. */
  lemma IdsAreNamed(raw: string)
    ensures forall id :: NewId(raw) == Ok(id) <==> Names(raw, id)
    ensures NewId(raw).Refused? <==> NamesNothing(raw)
  {
    forall id: string ensures NewId(raw) == Ok(id) <==> Names(raw, id) {
      TheCoreIsTrimmed(raw, id);
    }
  }

  /** An identifier is what makes itself; making one again changes nothing. */
  lemma IdsAreFixed(raw: string)
    ensures NewId(raw) == Ok(raw) <==> IsId(raw)
    ensures NewId(raw).Ok? ==> NewId(NewId(raw).value) == NewId(raw)
    ensures IsId(raw) <==> raw != "" && Tight(raw) && Bytes(raw) <= 64 && forall c | c in raw :: c >= ' ' && c != '\U{7f}'
  {
    if Tight(raw) {
      TrimmingTight(raw);
    }
    if NewId(raw).Ok? {
      TrimmingTight(NewId(raw).value);
    }
  }
}
