/** What the sources send, as the service takes it: the convert.go of catalogclient, orderclient and identityclient. */
module Conversions {
  import opened Options
  import opened Identifiers
  import opened Cursors
  import opened Documents
  import opened Indexes
  import opened Texts
  import opened Protocol

  // ---- the wire ----

  /** A cursor message; a message of before contracts 1.5.0 carries no transaction. */
  datatype WireCursor = WireCursor(lastId: string, txn: Option<nat>, through: Option<Instant>)

  function ToWire(c: Cursor): WireCursor {
    WireCursor(c.lastId, Some(c.txn), if c.through == ZERO_TIME then None else Some(c.through))
  }

  function FromWire(w: Option<WireCursor>): Cursor {
    match w
    case None => Cursor(0, "", ZERO_TIME)
    case Some(w) =>
      Cursor(if w.txn.Some? then w.txn.value else 0, w.lastId, if w.through.Some? then w.through.value else ZERO_TIME)
  }

  predicate CarriesTransaction(w: Option<WireCursor>) {
    w.Some? && w.value.txn.Some?
  }

  /** A cursor survives the wire; a message survives the service exactly when it names a transaction and no zero time. */
  lemma CursorsSurviveTheWire(c: Cursor, w: WireCursor)
    ensures FromWire(Some(ToWire(c))) == c && CarriesTransaction(Some(ToWire(c)))
    ensures ToWire(FromWire(Some(w))) == w <==> CarriesTransaction(Some(w)) && w.through != Some(ZERO_TIME)
    ensures FromWire(Some(w)).lastId == w.lastId && (w.txn.Some? ==> FromWire(Some(w)).txn == w.txn.value)
    ensures IsTime(w.through, FromWire(Some(w)).through) && Place(FromWire(None)) == Place(Cursor(0, "", ZERO_TIME))
  {
    if w.txn.Some? && w.through.Some? && w.through.value != ZERO_TIME {
      assert FromWire(Some(w)) == Cursor(w.txn.value, w.lastId, w.through.value);
    }
  }

  datatype Price = Price(currency: string, amountMinor: int)

  datatype ProductRecord = ProductRecord(
    sku: string, merchant: string, title: string, description: string, price: Option<Price>,
    categorySlug: string, updatedAt: Option<Time>)

  datatype OrderRecord = OrderRecord(
    number: string, buyer: string, merchant: string, status: string, lineTitles: TextList,
    placedAt: Option<Time>, updatedAt: Option<Time>)

  datatype MerchantStatus = Unspecified | Pending | Verified | Suspended | Closed | Unknown

  datatype MerchantRecord = MerchantRecord(
    principal: string, storeName: string, status: MerchantStatus, maySell: bool, updatedAt: Option<Time>)

  function TimeOf(t: Option<Time>): Time {
    if t.Some? then t.value else ZERO_TIME
  }

  // ---- one record ----

  function ToProduct(p: ProductRecord): (r: Result<Product>)
    ensures r.Ok? <==> NewId(p.sku).Ok?
    ensures r.Ok? ==> IsId(r.value.id) && OrZeroId(r.value.merchant)
  {
    var id := NewId(p.sku);
    if id.Refused? then Refused
    else
      Ok(Product(
        id.value, OrZero(NewId(p.merchant)), p.title, p.description,
        if p.categorySlug == "" then None else Some([p.categorySlug]),
        if p.price.Some? then p.price.value.amountMinor else 0, if p.price.Some? then p.price.value.currency else "",
        TimeOf(p.updatedAt)))
  }

  const PREFIX := "ORDER_STATUS_"

  function Lower(s: string): string {
    seq(|s|, i requires 0 <= i < |s| => if 'A' <= s[i] <= 'Z' then (s[i] as int + 32) as char else s[i])
  }

  function OrderStatus(name: string): string {
    var trimmed := if PREFIX <= name then name[|PREFIX|..] else name;
    if trimmed == "" || trimmed == "UNSPECIFIED" then "unknown" else Lower(trimmed)
  }

  /** An order without a buyer could be shown to nobody, so it is refused; an order without a merchant is kept. */
  function ToOrder(o: OrderRecord): (r: Result<Order>)
    ensures r.Ok? <==> NewId(o.number).Ok? && NewId(o.buyer).Ok?
    ensures r.Ok? ==> IsId(r.value.id) && IsId(r.value.buyer) && OrZeroId(r.value.merchant)
  {
    var id, buyer := NewId(o.number), NewId(o.buyer);
    if id.Refused? || buyer.Refused? then Refused
    else
      Ok(Order(
        id.value, buyer.value, OrZero(NewId(o.merchant)), o.number, OrderStatus(o.status), o.lineTitles,
        TimeOf(o.placedAt), TimeOf(o.updatedAt)))
  }

  function StatusName(s: MerchantStatus): string {
    match s
    case Pending => "pending"
    case Verified => "verified"
    case Suspended => "suspended"
    case Closed => "closed"
    case Unspecified => "unknown"
    case Unknown => "unknown"
  }

  function ToMerchant(m: MerchantRecord): (r: Result<Merchant>)
    ensures r.Ok? <==> NewId(m.principal).Ok?
    ensures r.Ok? ==> IsId(r.value.id)
  {
    var id := NewId(m.principal);
    if id.Refused? then Refused
    else Ok(Merchant(id.value, m.storeName, StatusName(m.status), m.maySell, None, TimeOf(m.updatedAt)))
  }

  // ---- whose a document is ----

  ghost predicate NamesOrNone(raw: string, id: string) {
    Names(raw, id) || (id == "" && NamesNothing(raw))
  }

  lemma NamedOrZero(raw: string, id: string)
    ensures OrZero(NewId(raw)) == id <==> NamesOrNone(raw, id)
  {
    IdsAreNamed(raw);
  }

  predicate IsTime(sent: Option<Time>, t: Time) {
    sent == Some(t) || (sent.None? && t == ZERO_TIME)
  }

  /** A product is taken as the one its sku names, sold by whom its record names, with everything else as sent. */
  lemma AProductIsItsRecord(p: ProductRecord, d: Product)
    ensures ToProduct(p) == Ok(d) <==>
            && Names(p.sku, d.id) && NamesOrNone(p.merchant, d.merchant)
            && d.title == p.title && d.description == p.description
            && (if p.categorySlug == "" then d.categories == None else d.categories == Some([p.categorySlug]))
            && (if p.price.Some? then p.price.value == Price(d.currency, d.priceMinor)
                else d.currency == "" && d.priceMinor == 0)
            && IsTime(p.updatedAt, d.updatedAt)
  {
    IdsAreNamed(p.sku);
    NamedOrZero(p.merchant, d.merchant);
  }

  predicate IsLower(s: string, lower: string) {
    && |lower| == |s|
    && forall i | 0 <= i < |s| ::
      lower[i] as int == s[i] as int + (if 'A' <= s[i] <= 'Z' then 'a' as int - 'A' as int else 0)
  }

  /** The status an order's enumeration value is shown as: its name, in small letters, without the common prefix. */
  predicate ReadsAs(name: string, status: string) {
    var short := if "ORDER_STATUS_" <= name then name[13..] else name;
    if short == "" || short == "UNSPECIFIED" then status == "unknown" else IsLower(short, status)
  }

  lemma StatusesAreRead(name: string, status: string)
    ensures OrderStatus(name) == status <==> ReadsAs(name, status)
  {
    var short := if PREFIX <= name then name[|PREFIX|..] else name;
    if IsLower(short, status) {
      assert Lower(short) == status;
    }
  }

  /** An order is taken as the one its number names, bought and sold by whom its record names. */
  lemma AnOrderIsItsRecord(o: OrderRecord, d: Order)
    ensures ToOrder(o) == Ok(d) <==>
            && Names(o.number, d.id) && Names(o.buyer, d.buyer) && NamesOrNone(o.merchant, d.merchant)
            && d.number == o.number && ReadsAs(o.status, d.status) && d.lineTitles == o.lineTitles
            && IsTime(o.placedAt, d.placedAt) && IsTime(o.updatedAt, d.updatedAt)
  {
    IdsAreNamed(o.number);
    IdsAreNamed(o.buyer);
    NamedOrZero(o.merchant, d.merchant);
    StatusesAreRead(o.status, d.status);
  }

  /** A merchant is taken as the one its principal names; its categories are left open. */
  lemma AMerchantIsItsRecord(m: MerchantRecord, d: Merchant)
    ensures ToMerchant(m) == Ok(d) <==>
            && Names(m.principal, d.id) && d.displayName == m.storeName && d.maySell == m.maySell
            && d.categories == None && IsTime(m.updatedAt, d.updatedAt)
            && (d.status, m.status) in
               {("pending", Pending), ("verified", Verified), ("suspended", Suspended), ("closed", MerchantStatus.Closed),
                ("unknown", Unspecified), ("unknown", Unknown)}
  {
    IdsAreNamed(m.principal);
  }

  // ---- a page ----

  datatype Response<R> = Response(upserted: seq<R>, removed: seq<string>, next: Option<WireCursor>, more: bool)

  /** How an adapter takes a record: the document it makes of it, and the name it refuses it under. */
  datatype Adapter<!R, !D> = Adapter(doc: R -> Result<D>, name: R -> string)

  const CATALOG: Adapter<ProductRecord, Product> := Adapter(p => ToProduct(p), (p: ProductRecord) => p.sku)
  const ORDERS: Adapter<OrderRecord, Order> := Adapter(o => ToOrder(o), (o: OrderRecord) => o.number)
  const IDENTITY: Adapter<MerchantRecord, Merchant> := Adapter(m => ToMerchant(m), (m: MerchantRecord) => m.principal)

  function Accepted<R, D>(a: Adapter<R, D>, records: seq<R>): seq<D> {
    if records == [] then []
    else (if a.doc(records[0]).Ok? then [a.doc(records[0]).value] else []) + Accepted(a, records[1..])
  }

  function Refusals<R, D>(a: Adapter<R, D>, records: seq<R>): seq<string> {
    if records == [] then []
    else (if a.doc(records[0]).Ok? then [] else [a.name(records[0])]) + Refusals(a, records[1..])
  }

  lemma OneRecord<R, D>(a: Adapter<R, D>, records: seq<R>, n: nat)
    requires n < |records|
    ensures var doc := a.doc(records[n]);
            && Accepted(a, records[n..]) == (if doc.Ok? then [doc.value] else []) + Accepted(a, records[n + 1..])
            && Refusals(a, records[n..])
               == (if doc.Ok? then [] else [a.name(records[n])]) + Refusals(a, records[n + 1..])
  {
    assert records[n..][1..] == records[n + 1..];
  }

  /** The loop the three adapters share: a record that makes no document is named and the page goes on. */
  method ToChanges<R, D>(a: Adapter<R, D>, response: Response<R>) returns (c: Changes<D>)
    ensures c.upserted == Accepted(a, response.upserted) && c.refused == Refusals(a, response.upserted)
    ensures c.removed == response.removed && c.next == FromWire(response.next) && c.more == response.more
  {
    var records := response.upserted;
    var upserted: seq<D>, refused: seq<string>, n := [], [], 0;
    while n < |records|
      invariant n <= |records|
      invariant upserted + Accepted(a, records[n..]) == Accepted(a, records)
      invariant refused + Refusals(a, records[n..]) == Refusals(a, records)
    {
      OneRecord(a, records, n);
      var doc := a.doc(records[n]);
      if doc.Refused? {
        refused := refused + [a.name(records[n])];
        n := n + 1;
        continue;
      }
      upserted := upserted + [doc.value];
      n := n + 1;
    }
    assert records[n..] == [] && upserted + [] == upserted && refused + [] == refused;
    c := Changes(upserted, response.removed, refused, FromWire(response.next), response.more);
  }

  /** An answer whose cursor names no transaction is from a source that pages in the old order, and is not taken. */
  method ChangedSince<R, D>(a: Adapter<R, D>, answer: Result<Response<R>>) returns (r: Result<Changes<D>>)
    ensures r.Ok? <==> answer.Ok? && CarriesTransaction(answer.value.next)
    ensures r.Ok? ==> r.value.upserted == Accepted(a, answer.value.upserted)
                      && r.value.refused == Refusals(a, answer.value.upserted)
                      && r.value.removed == answer.value.removed && r.value.more == answer.value.more
                      && r.value.next == FromWire(answer.value.next)
  {
    if answer.Refused? || !CarriesTransaction(answer.value.next) {
      return Refused;
    }
    var changes := ToChanges(a, answer.value);
    return Ok(changes);
  }

  // ---- a whole walk ----

  function AllRecords<R>(pages: seq<Response<R>>): seq<R> {
    if pages == [] then [] else pages[0].upserted + AllRecords(pages[1..])
  }

  function AllAccepted<R, D>(a: Adapter<R, D>, pages: seq<Response<R>>): seq<D> {
    if pages == [] then [] else Accepted(a, pages[0].upserted) + AllAccepted(a, pages[1..])
  }

  function AllRefused<R, D>(a: Adapter<R, D>, pages: seq<Response<R>>): seq<string> {
    if pages == [] then [] else Refusals(a, pages[0].upserted) + AllRefused(a, pages[1..])
  }

  lemma {:induction false} TakenTogether<R, D>(a: Adapter<R, D>, first: seq<R>, second: seq<R>)
    ensures Accepted(a, first + second) == Accepted(a, first) + Accepted(a, second)
    ensures Refusals(a, first + second) == Refusals(a, first) + Refusals(a, second)
  {
    if first == [] {
      assert first + second == second;
    } else {
      assert (first + second)[1..] == first[1..] + second;
      TakenTogether(a, first[1..], second);
    }
  }

  lemma {:induction false} NothingIsLost<R, D>(a: Adapter<R, D>, records: seq<R>)
    ensures |Accepted(a, records)| + |Refusals(a, records)| == |records|
  {
    if records != [] {
      NothingIsLost(a, records[1..]);
    }
  }

  /** However a walk is cut into pages: every record is accepted or refused, once, in the order it was sent. */
  lemma {:induction false} AWalkConserves<R, D>(a: Adapter<R, D>, pages: seq<Response<R>>)
    ensures AllAccepted(a, pages) == Accepted(a, AllRecords(pages))
    ensures AllRefused(a, pages) == Refusals(a, AllRecords(pages))
    ensures |AllAccepted(a, pages)| + |AllRefused(a, pages)| == |AllRecords(pages)|
    decreases |pages|
  {
    if pages != [] {
      AWalkConserves(a, pages[1..]);
      TakenTogether(a, pages[0].upserted, AllRecords(pages[1..]));
    }
    NothingIsLost(a, AllRecords(pages));
  }

  /** The document of the n-th record stands after those of the records before it. */
  lemma {:induction false} AcceptedInOrder<R, D>(a: Adapter<R, D>, records: seq<R>, n: nat)
    requires n < |records| && a.doc(records[n]).Ok?
    ensures var before := |Accepted(a, records[..n])|;
            before < |Accepted(a, records)| && Accepted(a, records)[before] == a.doc(records[n]).value
  {
    assert records == records[..n] + [records[n]] + records[n + 1..];
    TakenTogether(a, records[..n] + [records[n]], records[n + 1..]);
    TakenTogether(a, records[..n], [records[n]]);
    assert Accepted(a, [records[n]]) == [a.doc(records[n]).value];
  }

  /** Likewise the name of a refused one, and an adapter refuses by the name its source gives a record. */
  lemma {:induction false} RefusedInOrder<R, D>(a: Adapter<R, D>, records: seq<R>, n: nat)
    requires n < |records| && a.doc(records[n]).Refused?
    ensures var before := |Refusals(a, records[..n])|;
            before < |Refusals(a, records)| && Refusals(a, records)[before] == a.name(records[n])
  {
    assert records == records[..n] + [records[n]] + records[n + 1..];
    TakenTogether(a, records[..n] + [records[n]], records[n + 1..]);
    TakenTogether(a, records[..n], [records[n]]);
    assert Refusals(a, [records[n]]) == [a.name(records[n])];
  }

  lemma {:induction false} AcceptedCameFrom<R, D>(a: Adapter<R, D>, records: seq<R>, d: D)
    requires d in Accepted(a, records)
    ensures exists r :: r in records && a.doc(r) == Ok(d)
  {
    if a.doc(records[0]) == Ok(d) {
      assert records[0] in records;
    } else {
      AcceptedCameFrom(a, records[1..], d);
    }
  }

  /** Every identifier that reaches the index is a fixed point of the rule that makes them. */
  lemma AcceptedIdsAreFixed(
      products: seq<ProductRecord>, orders: seq<OrderRecord>, merchants: seq<MerchantRecord>)
    ensures forall d | d in Accepted(CATALOG, products) :: NewId(d.id) == Ok(d.id)
    ensures forall d | d in Accepted(ORDERS, orders) :: NewId(d.id) == Ok(d.id) && NewId(d.buyer) == Ok(d.buyer)
    ensures forall d | d in Accepted(IDENTITY, merchants) :: NewId(d.id) == Ok(d.id)
  {
    forall d | d in Accepted(CATALOG, products) ensures NewId(d.id) == Ok(d.id) {
      AcceptedCameFrom(CATALOG, products, d);
      IdsAreFixed(d.id);
    }
    forall d | d in Accepted(ORDERS, orders) ensures NewId(d.id) == Ok(d.id) && NewId(d.buyer) == Ok(d.buyer) {
      AcceptedCameFrom(ORDERS, orders, d);
      IdsAreFixed(d.id);
      IdsAreFixed(d.buyer);
    }
    forall d | d in Accepted(IDENTITY, merchants) ensures NewId(d.id) == Ok(d.id) {
      AcceptedCameFrom(IDENTITY, merchants, d);
      IdsAreFixed(d.id);
    }
  }

  /**
   A removal goes by the name as sent, an upsert by the identifier made of it, so removing takes the document out of the
   generation exactly when the name is an identifier already. Orders are never removed.
   */
  lemma ARemovalFindsItsDocument(p: ProductRecord, m: MerchantRecord, gens: map<Gen, Content>, gen: Gen)
    requires gen in gens
    ensures ToProduct(p).Ok? && ToProduct(p).value.id in gens[gen] ==>
              (ToProduct(p).value.id !in Emptied(gens, Some(gen), {p.sku})[gen] <==> IsId(p.sku))
    ensures ToMerchant(m).Ok? && ToMerchant(m).value.id in gens[gen] ==>
              (ToMerchant(m).value.id !in Emptied(gens, Some(gen), {m.principal})[gen] <==> IsId(m.principal))
  {
    IdsAreFixed(p.sku);
    IdsAreFixed(m.principal);
  }

  /** A name sent with a space before it leaves its document where it was. */
  lemma ARemovalThatFindsNothing(gens: map<Gen, Content>, gen: Gen)
    requires gen in gens && "a" in gens[gen] && " a" !in gens[gen]
    ensures var p := ProductRecord(" a", "", "", "", None, "", None);
            ToProduct(p).Ok? && ToProduct(p).value.id == "a" && Emptied(gens, Some(gen), {p.sku}) == gens
  {
    assert TrimSpace(" a") == TrimSpace(" a"[1..]) && " a"[1..] == "a";
    assert Bytes("a") == 1 by {
      assert "a"[1..] == "";
    }
    assert gens[gen] - {" a"} == gens[gen] && gens[gen := gens[gen]] == gens;
  }
}
