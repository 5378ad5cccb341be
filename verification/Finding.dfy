/** What a search finds of what a source sent: the adapters, the documents as stored, and the filters over them. */
module Finding {
  import opened Options
  import opened Identifiers
  import opened Documents
  import opened Conversions
  import Filters
  import Queries

  /** What the engine gives a filter to compare with under a field of an encoded document. */
  lemma FieldsAreCompared(m: Fields, key: Key)
    ensures Filters.Field(Json(Wire(m)), NameOf(key)) ==
            if key in m then Filters.TextsIn(Reread(m[key])) else {}
  {
    hide NameOf, Json;
    NamedFields(Wire(m));
  }

  lemma TextsAreCompared(texts: TextList)
    ensures Filters.TextsIn(Reread(Strings(texts))) == if texts.Some? then set t | t in texts.value else {}
  {
    if texts.Some? {
      forall t | t in texts.value ensures Text(t) in Items(texts.value) {
        var i :| 0 <= i < |texts.value| && texts.value[i] == t;
        assert Items(texts.value)[i] == Text(t);
      }
    }
  }

  /** Past the guard of Find an order is found by exactly its buyer and its merchant, and has no category to be found by. */
  lemma AnOrderIsFound(d: Order, q: Queries.Query)
    requires Filters.AllPrintable(Filters.Orders, q) && q.onBehalfOf != ""
    ensures Filters.Selects(Filters.Printed(Filters.Orders, q), Json(Wire(EncodeOrder(d)))) <==>
            && (d.buyer == q.onBehalfOf || d.merchant == q.onBehalfOf)
            && (q.merchant != "" ==> d.merchant == q.merchant) && q.categories == []
  {
    hide Json, Wire, NameOf, Filters.Printed, Filters.Selects, Filters.AllPrintable, Filters.Field, EncodeOrder;
    Filters.AFilterMeansItsQuery(Filters.Orders, q, Json(Wire(EncodeOrder(d))));
    OrderFields(d);
    TheNames();
    assert q.categories != [] ==> q.categories[0] in q.categories;
  }

  lemma OrderFields(d: Order)
    ensures var stored := Json(Wire(EncodeOrder(d)));
            && Filters.Field(stored, NameOf(Buyer)) == {d.buyer}
            && Filters.Field(stored, NameOf(MerchantId)) == {d.merchant}
            && Filters.Field(stored, NameOf(Categories)) == {}
  {
    hide NameOf, Json, Filters.Field, Wire;
    FieldsAreCompared(EncodeOrder(d), Buyer);
    FieldsAreCompared(EncodeOrder(d), MerchantId);
    FieldsAreCompared(EncodeOrder(d), Categories);
  }

  lemma AProductIsFound(d: Product, q: Queries.Query)
    requires Filters.AllPrintable(Filters.Products, q)
    ensures Filters.Selects(Filters.Printed(Filters.Products, q), Json(Wire(EncodeProduct(d)))) <==>
            && (q.merchant != "" ==> d.merchant == q.merchant)
            && (q.categories != [] ==> d.categories.Some? && exists c | c in q.categories :: c in d.categories.value)
  {
    hide Json, Wire, NameOf, Filters.Printed, Filters.Selects, Filters.AllPrintable, Filters.Field, EncodeProduct;
    Filters.AFilterMeansItsQuery(Filters.Products, q, Json(Wire(EncodeProduct(d))));
    ProductFields(d);
    TheNames();
  }

  lemma ProductFields(d: Product)
    ensures var stored := Json(Wire(EncodeProduct(d)));
            && Filters.Field(stored, NameOf(MerchantId)) == {d.merchant}
            && Filters.Field(stored, NameOf(Categories))
               == if d.categories.Some? then set c | c in d.categories.value else {}
  {
    hide NameOf, Json, Filters.Field, Wire;
    FieldsAreCompared(EncodeProduct(d), MerchantId);
    FieldsAreCompared(EncodeProduct(d), Categories);
    TextsAreCompared(d.categories);
  }

  /** A merchant has no merchant to be found by. */
  lemma AMerchantIsFound(d: Merchant, q: Queries.Query)
    requires Filters.AllPrintable(Filters.Merchants, q)
    ensures Filters.Selects(Filters.Printed(Filters.Merchants, q), Json(Wire(EncodeMerchant(d)))) <==>
            && q.merchant == ""
            && (q.categories != [] ==> d.categories.Some? && exists c | c in q.categories :: c in d.categories.value)
  {
    hide Json, Wire, NameOf, Filters.Printed, Filters.Selects, Filters.AllPrintable, Filters.Field, EncodeMerchant;
    Filters.AFilterMeansItsQuery(Filters.Merchants, q, Json(Wire(EncodeMerchant(d))));
    MerchantFields(d);
    TheNames();
  }

  lemma MerchantFields(d: Merchant)
    ensures var stored := Json(Wire(EncodeMerchant(d)));
            && Filters.Field(stored, NameOf(MerchantId)) == {}
            && Filters.Field(stored, NameOf(Categories))
               == if d.categories.Some? then set c | c in d.categories.value else {}
  {
    hide NameOf, Json, Filters.Field, Wire;
    FieldsAreCompared(EncodeMerchant(d), MerchantId);
    FieldsAreCompared(EncodeMerchant(d), Categories);
    TextsAreCompared(d.categories);
  }

  // ---- from the record a source sent to the search that finds it ----

  /** The order of a record is found on behalf of exactly the principals its record names as buyer or as merchant. */
  lemma ARecordIsFoundByItsPeople(o: OrderRecord, d: Order, p: Identifier)
    requires ToOrder(o) == Ok(d) && IsId(p)
    requires Filters.AllPrintable(Filters.Orders, Queries.BLANK.(onBehalfOf := p))
    ensures Filters.Selects(
              Filters.Printed(Filters.Orders, Queries.BLANK.(onBehalfOf := p)), Json(Wire(EncodeOrder(d)))) <==>
            Names(o.buyer, p) || Names(o.merchant, p)
  {
    hide Filters.Printed, Filters.Selects, Filters.AllPrintable, Json, Wire, EncodeOrder, ToOrder;
    AnOrderIsFound(d, Queries.BLANK.(onBehalfOf := p));
    AnOrderIsItsRecord(o, d);
    OneName(o.buyer, d.buyer, p);
    OneNameOrNone(o.merchant, d.merchant, p);
  }

  lemma OneName(raw: string, id: Identifier, p: Identifier)
    requires Names(raw, id)
    ensures Names(raw, p) <==> p == id
  {
    IdsAreNamed(raw);
  }

  lemma OneNameOrNone(raw: string, id: string, p: Identifier)
    requires NamesOrNone(raw, id) && IsId(p)
    ensures Names(raw, p) <==> p == id
  {
    IdsAreNamed(raw);
  }

  /** The product of a record is found under exactly the merchant its record names and the category it is sent with. */
  lemma AProductRecordIsFound(r: ProductRecord, d: Product, q: Queries.Query)
    requires ToProduct(r) == Ok(d) && Filters.AllPrintable(Filters.Products, q) && (q.merchant == "" || IsId(q.merchant))
    ensures Filters.Selects(Filters.Printed(Filters.Products, q), Json(Wire(EncodeProduct(d)))) <==>
            && (q.merchant != "" ==> Names(r.merchant, q.merchant))
            && (q.categories != [] ==> r.categorySlug != "" && r.categorySlug in q.categories)
  {
    hide Filters.Printed, Filters.Selects, Filters.AllPrintable, Json, Wire, EncodeProduct, ToProduct;
    AProductIsFound(d, q);
    AProductIsItsRecord(r, d);
    if q.merchant != "" {
      OneNameOrNone(r.merchant, d.merchant, q.merchant);
    }
  }
}
