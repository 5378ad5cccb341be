/** Building a query: internal/search/query.go. */
module Queries {
  import opened Options
  import opened Texts

  const DEFAULT_PAGE_SIZE := 24
  const MAX_PAGE_SIZE := 100
  const MAX_QUERY_LENGTH := 256

  datatype Page = Page(offset: int, limit: int)

  datatype Query = Query(
    text: string, categories: seq<string>, merchant: string, onBehalfOf: string, page: Page, ranking: string)

  const RELEVANCE := "relevance"
  const NEWEST := "newest"
  const PRICE_ASC := "price_asc"

  predicate KnownRanking(r: string) {
    r == RELEVANCE || r == NEWEST || r == PRICE_ASC
  }

  datatype QueryOption =
    | WithCategories(categories: seq<string>)
    | WithMerchant(merchant: string)
    | WithRanking(ranking: string)
    | WithPage(offset: int, limit: int)

  function Apply(q: Query, o: QueryOption): Query {
    match o
    case WithCategories(categories) => q.(categories := categories)
    case WithMerchant(merchant) => q.(merchant := merchant)
    case WithRanking(ranking) => if ranking != "" then q.(ranking := ranking) else q
    case WithPage(offset, limit) => q.(page := Page(offset, limit))
  }

  function Applied(q: Query, options: seq<QueryOption>): Query
    decreases |options|
  {
    if options == [] then q else Apply(Applied(q, options[..|options| - 1]), options[|options| - 1])
  }

  // ---- what is acceptable, and what it becomes ----

  predicate Searchable(raw: string) {
    Bytes(TrimSpace(raw)) <= MAX_QUERY_LENGTH && !HasControl(TrimSpace(raw))
  }

  function Trimmed(raws: seq<string>): seq<string> {
    seq(|raws|, i requires 0 <= i < |raws| => TrimSpace(raws[i]))
  }

  function NonEmpty(texts: seq<string>): seq<string> {
    if texts == [] then []
    else (if texts[0] == "" then [] else [texts[0]]) + NonEmpty(texts[1..])
  }

  function Bounded(limit: int): int
    requires limit >= 0
  {
    if limit == 0 then DEFAULT_PAGE_SIZE else if limit < MAX_PAGE_SIZE then limit else MAX_PAGE_SIZE
  }

  predicate Acceptable(text: string, asked: Query) {
    && Searchable(text) && asked.page.offset >= 0 && asked.page.limit >= 0 && KnownRanking(asked.ranking)
    && forall c | c in asked.categories :: Searchable(c)
  }

  function Normalised(text: string, asked: Query): Query
    requires Acceptable(text, asked)
  {
    asked.(text := TrimSpace(text),
           categories := NonEmpty(Trimmed(asked.categories)),
           page := Page(asked.page.offset, Bounded(asked.page.limit)))
  }

  const BLANK := Query("", [], "", "", Page(0, 0), RELEVANCE)

  // ---- what was asked for, and what may be ----

  /** A text that can be searched for: at most 256 bytes without its surrounding white space, and no control character. */
  ghost predicate MaySearch(raw: string) {
    exists core :: IsCore(raw, core) && Bytes(core) <= 256 && forall c | c in core :: c >= ' ' && c != '\U{7f}'
  }

  lemma SearchableTexts(raw: string)
    ensures Searchable(raw) <==> MaySearch(raw)
  {
    TheCoreIsTrimmed(raw, TrimSpace(raw));
    forall core | IsCore(raw, core) ensures core == TrimSpace(raw) {
      TheCoreIsTrimmed(raw, core);
    }
  }

  lemma WhatIsAcceptable(text: string, asked: Query)
    ensures Acceptable(text, asked) <==>
            && MaySearch(text) && asked.page.offset >= 0 && asked.page.limit >= 0
            && asked.ranking in {"relevance", "newest", "price_asc"}
            && forall c | c in asked.categories :: MaySearch(c)
  {
    hide Searchable, MaySearch;
    SearchableTexts(text);
    forall c: string ensures Searchable(c) <==> MaySearch(c) {
      SearchableTexts(c);
    }
  }

  function Spoken(raws: seq<string>): nat {
    if raws == [] then 0 else Spoken(raws[..|raws| - 1]) + (if Blank(raws[|raws| - 1]) then 0 else 1)
  }

  /** The texts of a list that are not blank, each without the white space around it, in their order. */
  ghost predicate Keeps(raws: seq<string>, kept: seq<string>) {
    && |kept| == Spoken(raws)
    && forall i | 0 <= i < |raws| && !Blank(raws[i]) ::
      Spoken(raws[..i]) < |kept| && IsCore(raws[i], kept[Spoken(raws[..i])])
  }

  lemma {:induction false} NonEmptyKeeps(raws: seq<string>)
    ensures Keeps(raws, NonEmpty(Trimmed(raws)))
    decreases |raws|
  {
    if raws != [] {
      var n := |raws| - 1;
      var before, last := raws[..n], raws[n];
      NonEmptyKeeps(before);
      OneCategoryMore(raws, n);
      assert raws[..n + 1] == raws == before + [last];
      KeepsOneMore(before, NonEmpty(Trimmed(before)), last);
    }
  }

  lemma KeepsOneMore(raws: seq<string>, kept: seq<string>, last: string)
    requires Keeps(raws, kept)
    ensures Keeps(raws + [last], kept + (if TrimSpace(last) == "" then [] else [TrimSpace(last)]))
  {
    hide IsCore, Blank, TrimSpace;
    var all := raws + [last];
    assert all[..|raws|] == raws;
    BlankMeansNoCore(last);
    forall i | 0 <= i < |raws| && !Blank(all[i])
      ensures Spoken(all[..i]) < |kept| && IsCore(all[i], kept[Spoken(all[..i])])
    {
      assert raws[i] == all[i] && raws[..i] == all[..i];
    }
  }

  lemma BlankMeansNoCore(raw: string)
    ensures Blank(raw) <==> TrimSpace(raw) == ""
    ensures IsCore(raw, TrimSpace(raw))
  {
    hide Blank, TrimSpace, IsCore;
    TheCoreIsTrimmed(raw, TrimSpace(raw));
    var before, after := TrimmedIsTheMiddle(raw);
    if TrimSpace(raw) == "" {
      assert raw == before + after;
      BlankTogether(before, after);
    }
    if Blank(raw) {
      TrimmingBlank(raw);
    }
  }

  /** The query a text and what was asked beside it make. */
  ghost predicate IsAsAsked(text: string, asked: Query, q: Query) {
    && IsCore(text, q.text) && Keeps(asked.categories, q.categories)
    && q.merchant == asked.merchant && q.ranking == asked.ranking && q.onBehalfOf == asked.onBehalfOf
    && q.page.offset == asked.page.offset
    && q.page.limit == (if asked.page.limit == 0 then 24 else if asked.page.limit > 100 then 100 else asked.page.limit)
  }

  lemma ABuiltQueryIsAsAsked(text: string, asked: Query)
    requires Acceptable(text, asked)
    ensures IsAsAsked(text, asked, Normalised(text, asked))
  {
    TheCoreIsTrimmed(text, TrimSpace(text));
    NonEmptyKeeps(asked.categories);
  }

  /** An empty ranking asks for nothing. */
  predicate AsksForSomething(o: QueryOption) {
    o.WithRanking? ==> o.ranking != ""
  }

  predicate SameKind(a: QueryOption, b: QueryOption) {
    && (a.WithCategories? <==> b.WithCategories?) && (a.WithMerchant? <==> b.WithMerchant?)
    && (a.WithRanking? <==> b.WithRanking?) && (a.WithPage? <==> b.WithPage?)
  }

  predicate Grants(q: Query, o: QueryOption) {
    match o
    case WithCategories(categories) => q.categories == categories
    case WithMerchant(merchant) => q.merchant == merchant
    case WithRanking(ranking) => q.ranking == ranking
    case WithPage(offset, limit) => q.page == Page(offset, limit)
  }

  /** Of several options of a kind the last one that asks for something is granted. */
  lemma {:induction false} TheLastOptionIsGranted(options: seq<QueryOption>, k: nat)
    requires k < |options| && AsksForSomething(options[k])
    requires forall i | k < i < |options| :: !(AsksForSomething(options[i]) && SameKind(options[i], options[k]))
    ensures Grants(Applied(BLANK, options), options[k])
    decreases |options|
  {
    var n := |options| - 1;
    if k < n {
      TheLastOptionIsGranted(options[..n], k);
    }
  }

  /** Of a kind nobody asks for there is the default: no categories, no merchant, relevance, the first page. */
  lemma {:induction false} NothingAskedIsTheDefault(options: seq<QueryOption>, o: QueryOption)
    requires forall i | 0 <= i < |options| :: !(AsksForSomething(options[i]) && SameKind(options[i], o))
    requires o in {WithCategories([]), WithMerchant(""), WithRanking("relevance"), WithPage(0, 0)}
    ensures Grants(Applied(BLANK, options), o)
    decreases |options|
  {
    if options != [] {
      NothingAskedIsTheDefault(options[..|options| - 1], o);
    }
  }

  // ---- the code ----

  method CheckSearchable(raw: string) returns (r: Result<string>)
    ensures r == if Searchable(raw) then Ok(TrimSpace(raw)) else Refused
  {
    var trimmed := TrimSpace(raw);
    if Bytes(trimmed) > MAX_QUERY_LENGTH {
      return Refused;
    }
    if HasControl(trimmed) {
      return Refused;
    }
    return Ok(trimmed);
  }

  method PageSize(limit: int) returns (r: Result<int>)
    ensures r == if limit < 0 then Refused else Ok(Bounded(limit))
  {
    if limit < 0 {
      return Refused;
    }
    if limit == 0 {
      return Ok(DEFAULT_PAGE_SIZE);
    }
    return Ok(if limit < MAX_PAGE_SIZE then limit else MAX_PAGE_SIZE);
  }

  method Categories(raw: seq<string>) returns (r: Result<seq<string>>)
    ensures r == if forall c | c in raw :: Searchable(c) then Ok(NonEmpty(Trimmed(raw))) else Refused
  {
    var kept: seq<string>, n := [], 0;
    while n < |raw|
      invariant n <= |raw| && kept == NonEmpty(Trimmed(raw[..n]))
      invariant forall c | c in raw[..n] :: Searchable(c)
    {
      var trimmed := CheckSearchable(raw[n]);
      if trimmed.Refused? {
        return Refused;
      }
      OneCategoryMore(raw, n);
      if trimmed.value != "" {
        kept := kept + [trimmed.value];
      }
      n := n + 1;
    }
    assert raw[..n] == raw;
    return Ok(kept);
  }

  lemma OneCategoryMore(raw: seq<string>, n: nat)
    requires n < |raw|
    ensures var trimmed := TrimSpace(raw[n]);
            NonEmpty(Trimmed(raw[..n + 1])) == NonEmpty(Trimmed(raw[..n])) + (if trimmed == "" then [] else [trimmed])
    ensures forall c | c in raw[..n + 1] :: c in raw[..n] || c == raw[n]
  {
    assert raw[..n + 1] == raw[..n] + [raw[n]];
    assert Trimmed(raw[..n + 1]) == Trimmed(raw[..n]) + [TrimSpace(raw[n])];
    NonEmptyTogether(Trimmed(raw[..n]), [TrimSpace(raw[n])]);
  }

  lemma {:induction false} NonEmptyTogether(a: seq<string>, b: seq<string>)
    ensures NonEmpty(a + b) == NonEmpty(a) + NonEmpty(b)
  {
    if a == [] {
      assert a + b == b;
    } else {
      assert (a + b)[1..] == a[1..] + b;
      NonEmptyTogether(a[1..], b);
    }
  }

  method NewQuery(text: string, options: seq<QueryOption>) returns (r: Result<Query>)
    ensures var asked := Applied(BLANK, options);
            r == if Acceptable(text, asked) then Ok(Normalised(text, asked)) else Refused
    ensures r.Ok? ==> IsAsAsked(text, Applied(BLANK, options), r.value)
  {
    if Acceptable(text, Applied(BLANK, options)) {
      ABuiltQueryIsAsAsked(text, Applied(BLANK, options));
    }
    var trimmed := CheckSearchable(text);
    if trimmed.Refused? {
      return Refused;
    }
    var q, n := BLANK, 0;
    while n < |options|
      invariant n <= |options| && q == Applied(BLANK, options[..n])
    {
      assert options[..n + 1][..n] == options[..n];
      q := Apply(q, options[n]);
      n := n + 1;
    }
    assert options[..n] == options;
    if q.page.offset < 0 {
      return Refused;
    }
    var limit := PageSize(q.page.limit);
    if limit.Refused? {
      return Refused;
    }
    if !KnownRanking(q.ranking) {
      return Refused;
    }
    var categories := Categories(q.categories);
    if categories.Refused? {
      return Refused;
    }
    return Ok(q.(text := trimmed.value, categories := categories.value, page := Page(q.page.offset, limit.value)));
  }

  // ---- what a built query is like ----

  predicate Normal(q: Query) {
    && Searchable(q.text) && Tight(q.text)
    && 1 <= q.page.limit <= MAX_PAGE_SIZE && q.page.offset >= 0 && KnownRanking(q.ranking)
    && (forall c | c in q.categories :: c != "" && Tight(c) && Searchable(c))
  }

  lemma {:induction false} KeptAreThere(texts: seq<string>)
    ensures forall c :: c in NonEmpty(texts) <==> c in texts && c != ""
  {
    if texts != [] {
      KeptAreThere(texts[1..]);
      assert texts == [texts[0]] + texts[1..];
    }
  }

  lemma TrimmedAreSearchable(raws: seq<string>)
    requires forall c | c in raws :: Searchable(c)
    ensures forall c | c in Trimmed(raws) :: Tight(c) && Searchable(c)
  {
    forall c | c in Trimmed(raws) ensures Tight(c) && Searchable(c) {
      var i :| 0 <= i < |raws| && Trimmed(raws)[i] == c;
      assert raws[i] in raws;
      TrimmingTight(c);
    }
  }

  lemma BuiltQueriesAreNormal(text: string, asked: Query)
    requires Acceptable(text, asked)
    ensures Normal(Normalised(text, asked))
  {
    TrimmingTight(TrimSpace(text));
    TrimmedAreSearchable(asked.categories);
    KeptAreThere(Trimmed(asked.categories));
  }

  lemma {:induction false} NothingEmpty(texts: seq<string>)
    requires "" !in texts
    ensures NonEmpty(texts) == texts
  {
    if texts != [] {
      NothingEmpty(texts[1..]);
      assert texts == [texts[0]] + texts[1..];
    }
  }

  /** The options that ask for what a query already is. */
  function Again(q: Query): seq<QueryOption> {
    [WithCategories(q.categories), WithMerchant(q.merchant), WithRanking(q.ranking), WithPage(q.page.offset, q.page.limit)]
  }

  lemma AppliedAgain(q: Query)
    requires q.ranking != ""
    ensures Applied(BLANK, Again(q)) == q.(text := "", onBehalfOf := "")
  {
    var o := Again(q);
    assert o[..3][..2] == o[..2] && o[..2][..1] == o[..1] && o[..1][..0] == [];
    assert Applied(BLANK, o[..1]) == BLANK.(categories := q.categories);
    assert Applied(BLANK, o[..2]) == BLANK.(categories := q.categories, merchant := q.merchant);
    assert Applied(BLANK, o[..3]) == BLANK.(categories := q.categories, merchant := q.merchant, ranking := q.ranking);
  }

  /** Building a query again from a built one gives it back. */
  lemma RebuildingChangesNothing(text: string, options: seq<QueryOption>)
    requires Acceptable(text, Applied(BLANK, options))
    ensures var q := Normalised(text, Applied(BLANK, options));
            var asked := Applied(BLANK, Again(q));
            Acceptable(q.text, asked) && Normalised(q.text, asked) == q
  {
    var asked := Applied(BLANK, options);
    var q := Normalised(text, asked);
    BuiltQueriesAreNormal(text, asked);
    AppliedAgain(q);
    NeverOnBehalf(options);
    TrimmingTight(q.text);
    forall i | 0 <= i < |q.categories| ensures Trimmed(q.categories)[i] == q.categories[i] {
      assert q.categories[i] in q.categories;
      TrimmingTight(q.categories[i]);
    }
    assert Trimmed(q.categories) == q.categories;
    NothingEmpty(q.categories);
  }

  lemma {:induction false} NeverOnBehalf(options: seq<QueryOption>)
    ensures Applied(BLANK, options).onBehalfOf == "" && Applied(BLANK, options).text == ""
    decreases |options|
  {
    if options != [] {
      NeverOnBehalf(options[..|options| - 1]);
    }
  }
}
