/** Documents through the engine and back: internal/typesense/documents.go over JSON (sections 3 and 6 of RFC 8259). */
module Documents {
  import opened Options
  import opened Texts
  import opened Identifiers
  import opened Floats
  import opened Cursors

  const MILLI := 1_000_000

  /** The Unix epoch, in milliseconds since the zero time. */
  const EPOCH := 62_135_596_800_000

  /** A list of texts; None is Go's nil slice, which is not an empty one. */
  type TextList = Option<seq<string>>

  datatype Product = Product(
    id: Identifier, merchant: Identifier, title: string, description: string,
    categories: TextList, priceMinor: int, currency: string, updatedAt: Time)

  datatype Merchant = Merchant(
    id: Identifier, displayName: string, status: string, maySell: bool, categories: TextList, updatedAt: Time)

  datatype Order = Order(
    id: Identifier, buyer: Identifier, merchant: Identifier, number: string, status: string,
    lineTitles: TextList, placedAt: Time, updatedAt: Time)

  /** The dynamic values a document's map holds; a float64 that came from a whole number is whole. */
  datatype Any =
    | Text(text: string)
    | Int64(int64: int)
    | Float64(float64: int)
    | Bool(truth: bool)
    | Strings(strings: TextList)
    | List(values: seq<Any>)
    | Nil

  /** The fields of the engine's schema; NameOf gives their names. */
  datatype Key =
    | Id | MerchantId | Title | Description | Categories | PriceMinor | Currency | UpdatedAt
    | DisplayName | Status | MaySell | Buyer | Number | LineTitles | PlacedAt

  function NameOf(key: Key): string {
    match key
    case Id => "id"
    case MerchantId => "merchant_id"
    case Title => "title"
    case Description => "description"
    case Categories => "categories"
    case PriceMinor => "price_minor"
    case Currency => "currency"
    case UpdatedAt => "updated_at"
    case DisplayName => "display_name"
    case Status => "status"
    case MaySell => "may_sell"
    case Buyer => "buyer"
    case Number => "number"
    case LineTitles => "line_titles"
    case PlacedAt => "placed_at"
  }

  type Fields = map<Key, Any>

  function At(m: Fields, key: Key): Any {
    if key in m then m[key] else Nil
  }

  // ---- scalars ----

  function Millis(t: Time): int {
    t / MILLI - EPOCH
  }

  function FromMillis(n: int): Time {
    (n + EPOCH) * MILLI
  }

  function TimeFromMillis(v: Any): Time {
    match v
    case Float64(n) => FromMillis(ToInt64(n))
    case Int64(n) => FromMillis(n)
    case _ => ZERO_TIME
  }

  function TextAt(m: Fields, key: Key): string {
    if At(m, key).Text? then At(m, key).text else ""
  }

  function NumberAt(m: Fields, key: Key): int {
    match At(m, key)
    case Float64(n) => ToInt64(n)
    case Int64(n) => n
    case _ => 0
  }

  function BoolAt(m: Fields, key: Key): bool {
    At(m, key).Bool? && At(m, key).truth
  }

  /** The texts of a list, whatever else it holds. */
  function TextsOf(values: seq<Any>): seq<string> {
    if values == [] then []
    else (if values[0].Text? then [values[0].text] else []) + TextsOf(values[1..])
  }

  function StringListAt(m: Fields, key: Key): TextList {
    if At(m, key).List? then Some(TextsOf(At(m, key).values)) else None
  }

  method StringList(m: Fields, key: Key) returns (r: TextList)
    ensures r == StringListAt(m, key)
  {
    if !At(m, key).List? {
      return None;
    }
    var raw := At(m, key).values;
    var out: seq<string>, n := [], 0;
    while n < |raw|
      invariant n <= |raw| && out + TextsOf(raw[n..]) == TextsOf(raw)
    {
      assert raw[n..][1..] == raw[n + 1..];
      if raw[n].Text? {
        out := out + [raw[n].text];
      }
      n := n + 1;
    }
    assert raw[n..] == [] && out + [] == out;
    return Some(out);
  }

  // ---- documents ----

  function EncodeProduct(d: Product): Fields {
    map[
      Id := Text(d.id), MerchantId := Text(d.merchant), Title := Text(d.title),
      Description := Text(d.description), Categories := Strings(d.categories),
      PriceMinor := Int64(d.priceMinor), Currency := Text(d.currency), UpdatedAt := Int64(Millis(d.updatedAt))]
  }

  function OrZero(r: Result<Identifier>): Identifier {
    if r.Ok? then r.value else ""
  }

  function DecodeProduct(m: Fields): Result<Product> {
    var id := NewId(TextAt(m, Id));
    if id.Refused? then Refused
    else
      Ok(Product(
        id.value, OrZero(NewId(TextAt(m, MerchantId))), TextAt(m, Title), TextAt(m, Description),
        StringListAt(m, Categories), NumberAt(m, PriceMinor), TextAt(m, Currency),
        TimeFromMillis(At(m, UpdatedAt))))
  }

  function EncodeMerchant(d: Merchant): Fields {
    map[
      Id := Text(d.id), DisplayName := Text(d.displayName), Status := Text(d.status),
      MaySell := Bool(d.maySell), Categories := Strings(d.categories), UpdatedAt := Int64(Millis(d.updatedAt))]
  }

  function DecodeMerchant(m: Fields): Result<Merchant> {
    var id := NewId(TextAt(m, Id));
    if id.Refused? then Refused
    else
      Ok(Merchant(
        id.value, TextAt(m, DisplayName), TextAt(m, Status), BoolAt(m, MaySell),
        StringListAt(m, Categories), TimeFromMillis(At(m, UpdatedAt))))
  }

  function EncodeOrder(d: Order): Fields {
    map[
      Id := Text(d.id), Buyer := Text(d.buyer), MerchantId := Text(d.merchant), Number := Text(d.number),
      Status := Text(d.status), LineTitles := Strings(d.lineTitles),
      PlacedAt := Int64(Millis(d.placedAt)), UpdatedAt := Int64(Millis(d.updatedAt))]
  }

  function DecodeOrder(m: Fields): Result<Order> {
    var id := NewId(TextAt(m, Id));
    if id.Refused? then Refused
    else
      Ok(Order(
        id.value, OrZero(NewId(TextAt(m, Buyer))), OrZero(NewId(TextAt(m, MerchantId))), TextAt(m, Number),
        TextAt(m, Status), StringListAt(m, LineTitles), TimeFromMillis(At(m, PlacedAt)),
        TimeFromMillis(At(m, UpdatedAt))))
  }

  // ---- JSON between the two ----

  function Items(texts: seq<string>): seq<Any> {
    seq(|texts|, i requires 0 <= i < |texts| => Text(texts[i]))
  }

  /** What a value is once written as JSON and read into a map of any: every number a float64, a nil list a null. */
  function Reread(v: Any): Any {
    match v
    case Int64(n) => Float64(Round(n))
    case Strings(texts) => if texts.Some? then List(Items(texts.value)) else Nil
    case _ => v
  }

  function Wire(m: Fields): Fields {
    map key | key in m :: Reread(m[key])
  }

  /** The JSON object: the fields under their names. */
  function Json(m: Fields): map<string, Any> {
    map key | key in m :: NameOf(key) := m[key]
  }

  lemma NamesTellKeysApart(a: Key, b: Key)
    requires NameOf(a) == NameOf(b)
    ensures a == b
  {
    var x, y := NameOf(a), NameOf(b);
    assert |x| == |y| && x[0] == y[0];
  }

  lemma {:induction false} ItemsAreTexts(texts: seq<string>)
    ensures TextsOf(Items(texts)) == texts
  {
    if texts != [] {
      assert Items(texts)[1..] == Items(texts[1..]);
      ItemsAreTexts(texts[1..]);
    }
  }

  lemma TextsSurvive(m: Fields, key: Key)
    requires key in m && m[key].Strings?
    ensures StringListAt(Wire(m), key) == m[key].strings
  {
    if m[key].strings.Some? {
      ItemsAreTexts(m[key].strings.value);
    }
  }

  lemma {:induction false} TextsTogether(a: seq<Any>, b: seq<Any>)
    ensures TextsOf(a + b) == TextsOf(a) + TextsOf(b)
  {
    if a == [] {
      assert a + b == b;
    } else {
      assert (a + b)[0] == a[0] && (a + b)[1..] == a[1..] + b;
      TextsTogether(a[1..], b);
    }
  }

  /** Of a list the texts are taken, in their order, and anything else is passed over. */
  lemma TextsInOrder(a: seq<Any>, v: Any, b: seq<Any>)
    ensures TextsOf(a + [v] + b) == TextsOf(a) + (if v.Text? then [v.text] else []) + TextsOf(b)
  {
    OneText(v);
    hide TextsOf;
    TextsTogether(a + [v], b);
    TextsTogether(a, [v]);
  }

  lemma OneText(v: Any)
    ensures TextsOf([v]) == if v.Text? then [v.text] else []
  {
    assert [v][1..] == [];
  }

  predicate IsInt64(n: int) {
    -TWO_63 <= n < TWO_63
  }

  /** A time that a whole number of milliseconds names, and a float64 holds. */
  ghost predicate Timely(t: Time) {
    t % MILLI == 0 && Representable(Millis(t))
  }

  lemma TimesSurvive(t: Time)
    requires IsInt64(Millis(t))
    ensures TimeFromMillis(Reread(Int64(Millis(t)))) == t <==> Timely(t)
  {
    SurvivesExactly(Millis(t));
    assert t == FromMillis(Millis(t)) + t % MILLI;
  }

  predicate OrZeroId(s: string) {
    s == "" || IsId(s)
  }

  lemma IdsSurvive(s: string)
    ensures NewId(s) == Ok(s) <==> IsId(s)
    ensures OrZero(NewId(s)) == s <==> OrZeroId(s)
  {
    IdsAreFixed(s);
    assert TrimSpace("") == "";
  }

  // ---- what is stored, under which name ----

  lemma NamedFields(m: Fields)
    ensures forall key :: if key in m then NameOf(key) in Json(m) && Json(m)[NameOf(key)] == m[key]
                          else NameOf(key) !in Json(m)
  {
    forall key: Key
      ensures if key in m then NameOf(key) in Json(m) && Json(m)[NameOf(key)] == m[key] else NameOf(key) !in Json(m)
    {
      forall other | other in m && NameOf(other) == NameOf(key) ensures other == key {
        NamesTellKeysApart(other, key);
      }
      if key in m {
        assert NameOf(key) in Json(m);
      }
    }
  }

  lemma KeysAreNames(m: Fields)
    ensures Json(m).Keys == set key | key in m :: NameOf(key)
  {
    hide NameOf;
  }

  /** The whole milliseconds from the beginning of 1970 to a time, rounded towards the past. */
  predicate IsMillis(t: Time, n: int) {
    n * MILLI <= t - UNIX_EPOCH < (n + 1) * MILLI
  }

  /** Days from the beginning of year 1 to that of another, in the proleptic Gregorian calendar. */
  function DaysBefore(year: nat): int
    requires year > 0
  {
    var y := year - 1;
    y * 365 + y / 4 - y / 100 + y / 400
  }

  const UNIX_EPOCH: Time := DaysBefore(1970) * 24 * 60 * 60 * 1000 * MILLI

  lemma MillisCountFromTheEpoch(t: Time, n: int)
    ensures Millis(t) == n <==> IsMillis(t, n)
    ensures Millis(UNIX_EPOCH) == 0
  {
    assert UNIX_EPOCH == EPOCH * MILLI;
  }

  lemma ProductNames(d: Product)
    ensures Json(EncodeProduct(d)).Keys
            == {"id", "merchant_id", "title", "description", "categories", "price_minor", "currency", "updated_at"}
  {
    hide NameOf, Millis, Json;
    TheNames();
    KeysAreNames(EncodeProduct(d));
  }

  lemma ProductIsStored(d: Product)
    ensures var j := Json(EncodeProduct(d));
            && j.Keys == {"id", "merchant_id", "title", "description", "categories", "price_minor", "currency", "updated_at"}
            && j["id"] == Text(d.id) && j["merchant_id"] == Text(d.merchant)
            && j["title"] == Text(d.title) && j["description"] == Text(d.description)
            && j["categories"] == Strings(d.categories)
            && j["price_minor"] == Int64(d.priceMinor) && j["currency"] == Text(d.currency)
            && j["updated_at"].Int64? && IsMillis(d.updatedAt, j["updated_at"].int64)
  {
    hide NameOf, Millis, Json, IsMillis;
    TheNames();
    NamedFields(EncodeProduct(d));
    ProductNames(d);
    MillisCountFromTheEpoch(d.updatedAt, Millis(d.updatedAt));
  }

  lemma MerchantNames(d: Merchant)
    ensures Json(EncodeMerchant(d)).Keys == {"id", "display_name", "status", "may_sell", "categories", "updated_at"}
  {
    hide NameOf, Millis, Json;
    TheNames();
    KeysAreNames(EncodeMerchant(d));
  }

  lemma MerchantIsStored(d: Merchant)
    ensures var j := Json(EncodeMerchant(d));
            && j.Keys == {"id", "display_name", "status", "may_sell", "categories", "updated_at"}
            && j["id"] == Text(d.id) && j["display_name"] == Text(d.displayName)
            && j["status"] == Text(d.status) && j["may_sell"] == Bool(d.maySell)
            && j["categories"] == Strings(d.categories)
            && j["updated_at"].Int64? && IsMillis(d.updatedAt, j["updated_at"].int64)
  {
    hide NameOf, Millis, Json, IsMillis;
    TheNames();
    NamedFields(EncodeMerchant(d));
    MerchantNames(d);
    MillisCountFromTheEpoch(d.updatedAt, Millis(d.updatedAt));
  }

  lemma OrderNames(d: Order)
    ensures Json(EncodeOrder(d)).Keys
            == {"id", "buyer", "merchant_id", "number", "status", "line_titles", "placed_at", "updated_at"}
  {
    hide NameOf, Millis, Json;
    TheNames();
    KeysAreNames(EncodeOrder(d));
  }

  lemma OrderIsStored(d: Order)
    ensures var j := Json(EncodeOrder(d));
            && j.Keys == {"id", "buyer", "merchant_id", "number", "status", "line_titles", "placed_at", "updated_at"}
            && j["id"] == Text(d.id) && j["buyer"] == Text(d.buyer) && j["merchant_id"] == Text(d.merchant)
            && j["number"] == Text(d.number) && j["status"] == Text(d.status)
            && j["line_titles"] == Strings(d.lineTitles)
            && j["placed_at"].Int64? && IsMillis(d.placedAt, j["placed_at"].int64)
            && j["updated_at"].Int64? && IsMillis(d.updatedAt, j["updated_at"].int64)
  {
    hide NameOf, Millis, Json, IsMillis;
    TheNames();
    NamedFields(EncodeOrder(d));
    OrderNames(d);
    MillisCountFromTheEpoch(d.placedAt, Millis(d.placedAt));
    MillisCountFromTheEpoch(d.updatedAt, Millis(d.updatedAt));
  }

  lemma TheNames()
    ensures NameOf(Id) == "id" && NameOf(MerchantId) == "merchant_id" && NameOf(Buyer) == "buyer"
    ensures NameOf(Title) == "title" && NameOf(Description) == "description" && NameOf(Categories) == "categories"
    ensures NameOf(PriceMinor) == "price_minor" && NameOf(Currency) == "currency" && NameOf(UpdatedAt) == "updated_at"
    ensures NameOf(DisplayName) == "display_name" && NameOf(Status) == "status" && NameOf(MaySell) == "may_sell"
    ensures NameOf(Number) == "number" && NameOf(LineTitles) == "line_titles" && NameOf(PlacedAt) == "placed_at"
  {
  }

  lemma ProductReread(d: Product)
    ensures DecodeProduct(Wire(EncodeProduct(d))) ==
            if NewId(d.id).Refused? then Refused
            else
              Ok(Product(
                NewId(d.id).value, OrZero(NewId(d.merchant)), d.title, d.description, d.categories,
                ToInt64(Round(d.priceMinor)), d.currency, TimeFromMillis(Reread(Int64(Millis(d.updatedAt))))))
  {
    var m := EncodeProduct(d);
    TextsSurvive(m, Categories);
    assert At(Wire(m), Id) == Text(d.id) && At(Wire(m), MerchantId) == Text(d.merchant);
    assert At(Wire(m), Title) == Text(d.title) && At(Wire(m), Description) == Text(d.description);
    assert At(Wire(m), PriceMinor) == Float64(Round(d.priceMinor)) && At(Wire(m), Currency) == Text(d.currency);
  }

  lemma OrderReread(d: Order)
    ensures DecodeOrder(Wire(EncodeOrder(d))) ==
            if NewId(d.id).Refused? then Refused
            else
              Ok(Order(
                NewId(d.id).value, OrZero(NewId(d.buyer)), OrZero(NewId(d.merchant)), d.number, d.status, d.lineTitles,
                TimeFromMillis(Reread(Int64(Millis(d.placedAt)))), TimeFromMillis(Reread(Int64(Millis(d.updatedAt))))))
  {
    hide Millis, OrZero;
    var m := EncodeOrder(d);
    TextsSurvive(m, LineTitles);
    assert At(Wire(m), Id) == Text(d.id) && At(Wire(m), Buyer) == Text(d.buyer);
    assert At(Wire(m), MerchantId) == Text(d.merchant) && At(Wire(m), Number) == Text(d.number);
    assert At(Wire(m), Status) == Text(d.status);
  }

  /** A product comes back unchanged exactly when its identifiers are made ones and its numbers fit a float64. */
  lemma ProductSurvives(d: Product)
    requires IsInt64(d.priceMinor) && IsInt64(Millis(d.updatedAt))
    ensures DecodeProduct(Wire(EncodeProduct(d))) == Ok(d) <==>
            IsId(d.id) && OrZeroId(d.merchant) && Representable(d.priceMinor) && Timely(d.updatedAt)
  {
    ProductReread(d);
    SurvivesExactly(d.priceMinor);
    TimesSurvive(d.updatedAt);
    IdsSurvive(d.id);
    IdsSurvive(d.merchant);
  }

  lemma MerchantSurvives(d: Merchant)
    requires IsInt64(Millis(d.updatedAt))
    ensures DecodeMerchant(Wire(EncodeMerchant(d))) == Ok(d) <==> IsId(d.id) && Timely(d.updatedAt)
  {
    var m := EncodeMerchant(d);
    TextsSurvive(m, Categories);
    TimesSurvive(d.updatedAt);
    IdsSurvive(d.id);
  }

  lemma OrderSurvives(d: Order)
    requires IsInt64(Millis(d.placedAt)) && IsInt64(Millis(d.updatedAt))
    ensures DecodeOrder(Wire(EncodeOrder(d))) == Ok(d) <==>
            IsId(d.id) && OrZeroId(d.buyer) && OrZeroId(d.merchant) && Timely(d.placedAt) && Timely(d.updatedAt)
  {
    OrderReread(d);
    TimesSurvive(d.placedAt);
    TimesSurvive(d.updatedAt);
    IdsSurvive(d.id);
    IdsSurvive(d.buyer);
    IdsSurvive(d.merchant);
  }

  /** What a document does not say is read as the empty text, zero, false, no list and the zero time. */
  lemma NothingSaidIsZero(id: Identifier)
    requires IsId(id)
    ensures DecodeProduct(map[Id := Text(id)]) == Ok(Product(id, "", "", "", None, 0, "", ZERO_TIME))
    ensures DecodeMerchant(map[Id := Text(id)]) == Ok(Merchant(id, "", "", false, None, ZERO_TIME))
    ensures DecodeOrder(map[Id := Text(id)]) == Ok(Order(id, "", "", "", "", None, ZERO_TIME, ZERO_TIME))
  {
    IdsSurvive(id);
    IdsSurvive("");
  }

  /** Whatever the checks of the code let through, prices up to 2^53 either way survive. */
  lemma ModestProductsSurvive(d: Product)
    requires IsId(d.id) && OrZeroId(d.merchant) && -TWO_53 <= d.priceMinor <= TWO_53
    requires d.updatedAt % MILLI == 0 && -TWO_53 <= Millis(d.updatedAt) <= TWO_53
    ensures DecodeProduct(Wire(EncodeProduct(d))) == Ok(d)
  {
    SmallIsRepresentable(d.priceMinor);
    SmallIsRepresentable(Millis(d.updatedAt));
    ProductSurvives(d);
  }

  /** One more and a price is found as a different one. */
  lemma APriceIsLost(d: Product)
    requires IsId(d.id) && d.priceMinor == TWO_53 + 1
    ensures DecodeProduct(Wire(EncodeProduct(d))).Ok?
    ensures DecodeProduct(Wire(EncodeProduct(d))).value.priceMinor == TWO_53
  {
    TheFirstLoss();
    IdsSurvive(d.id);
  }
}
