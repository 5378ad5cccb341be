/** The filters of internal/typesense/query.go, and the engine that reads them. */
module Filters {
  import opened Options
  import opened Queries
  import Documents

  // ---- the filter language ----

  datatype Token =
    | Name(name: string)
    | Equals
    | Value(text: string, prefix: bool)
    | Open
    | Close
    | OpenList
    | CloseList
    | Comma
    | Or
    | And

  predicate NameChar(c: char) {
    'a' <= c <= 'z' || c == '_'
  }

  /** A quoted value up to its closing backtick; a backslash takes the next character as it is. */
  function ReadQuoted(s: string, read: string): Option<(string, string)>
    decreases |s|
  {
    if s == "" then None
    else if s[0] == '`' then Some((read, s[1..]))
    else if s[0] != '\\' then ReadQuoted(s[1..], read + [s[0]])
    else if |s| == 1 then None
    else ReadQuoted(s[2..], read + [s[1]])
  }

  lemma {:induction false} ReadQuotedShrinks(s: string, read: string)
    ensures ReadQuoted(s, read).Some? ==> |ReadQuoted(s, read).value.1| < |s|
    decreases |s|
  {
    if s != "" && s[0] != '`' {
      if s[0] != '\\' {
        ReadQuotedShrinks(s[1..], read + [s[0]]);
      } else if |s| > 1 {
        ReadQuotedShrinks(s[2..], read + [s[1]]);
      }
    }
  }

  /** A value that ends in a star matches every text it is a prefix of. */
  function Quoted(read: string): Token {
    if read != "" && read[|read| - 1] == '*' then Value(read[..|read| - 1], true) else Value(read, false)
  }

  function NameLength(s: string): (n: nat)
    ensures n <= |s|
  {
    if s == "" || !NameChar(s[0]) then 0 else 1 + NameLength(s[1..])
  }

  function Prepend(token: Token, rest: Option<seq<Token>>): Option<seq<Token>> {
    match rest
    case None => None
    case Some(tokens) => Some([token] + tokens)
  }

  function Lex(s: string): Option<seq<Token>>
    decreases |s|
  {
    if s == "" then Some([])
    else if s[0] == ' ' then Lex(s[1..])
    else if s[0] == '(' then Prepend(Open, Lex(s[1..]))
    else if s[0] == ')' then Prepend(Close, Lex(s[1..]))
    else if s[0] == '[' then Prepend(OpenList, Lex(s[1..]))
    else if s[0] == ']' then Prepend(CloseList, Lex(s[1..]))
    else if s[0] == ',' then Prepend(Comma, Lex(s[1..]))
    else if s[0] == '`' then
      ReadQuotedShrinks(s[1..], "");
      match ReadQuoted(s[1..], "")
      case None => None
      case Some((read, rest)) => Prepend(Quoted(read), Lex(rest))
    else if NameChar(s[0]) then Prepend(Name(s[..NameLength(s)]), Lex(s[NameLength(s)..]))
    else if |s| > 1 && s[..2] == ":=" then Prepend(Equals, Lex(s[2..]))
    else if |s| > 1 && s[..2] == "||" then Prepend(Or, Lex(s[2..]))
    else if |s| > 1 && s[..2] == "&&" then Prepend(And, Lex(s[2..]))
    else None
  }

  datatype Operand = Operand(text: string, prefix: bool)
  datatype Comparison = Comparison(field: string, values: seq<Operand>)
  datatype Term = One(comparison: Comparison) | Either(comparisons: seq<Comparison>)

  /** The values of a list, up to its closing bracket. */
  function ParseValues(ts: seq<Token>): Option<(seq<Operand>, seq<Token>)>
    decreases |ts|
  {
    if |ts| < 2 || !ts[0].Value? then None
    else
      var first := Operand(ts[0].text, ts[0].prefix);
      if ts[1].CloseList? then Some(([first], ts[2..]))
      else if !ts[1].Comma? then None
      else
        match ParseValues(ts[2..])
        case None => None
        case Some((values, rest)) => Some(([first] + values, rest))
  }

  function ParseComparison(ts: seq<Token>): (r: Option<(Comparison, seq<Token>)>)
    ensures r.Some? ==> |r.value.1| < |ts|
  {
    if |ts| < 3 || !ts[0].Name? || !ts[1].Equals? then None
    else if ts[2].Value? then Some((Comparison(ts[0].name, [Operand(ts[2].text, ts[2].prefix)]), ts[3..]))
    else if !ts[2].OpenList? then None
    else
      ValuesShrink(ts[3..]);
      match ParseValues(ts[3..])
      case None => None
      case Some((values, rest)) => Some((Comparison(ts[0].name, values), rest))
  }

  lemma {:induction false} ValuesShrink(ts: seq<Token>)
    ensures ParseValues(ts).Some? ==> |ParseValues(ts).value.1| < |ts|
    decreases |ts|
  {
    if |ts| >= 2 && ts[0].Value? && ts[1].Comma? {
      ValuesShrink(ts[2..]);
    }
  }

  /** Alternatives up to the closing parenthesis. */
  function ParseEither(ts: seq<Token>): (r: Option<(seq<Comparison>, seq<Token>)>)
    ensures r.Some? ==> |r.value.1| < |ts|
    decreases |ts|
  {
    match ParseComparison(ts)
    case None => None
    case Some((first, rest)) =>
      if rest == [] then None
      else if rest[0].Close? then Some(([first], rest[1..]))
      else if !rest[0].Or? then None
      else
        match ParseEither(rest[1..])
        case None => None
        case Some((others, rest')) => Some(([first] + others, rest'))
  }

  function ParseTerm(ts: seq<Token>): (r: Option<(Term, seq<Token>)>)
    ensures r.Some? ==> |r.value.1| < |ts|
  {
    if ts != [] && ts[0].Open? then
      match ParseEither(ts[1..])
      case None => None
      case Some((comparisons, rest)) => Some((Either(comparisons), rest))
    else
      match ParseComparison(ts)
      case None => None
      case Some((comparison, rest)) => Some((One(comparison), rest))
  }

  function Parse(ts: seq<Token>): Option<seq<Term>>
    decreases |ts|
  {
    match ParseTerm(ts)
    case None => None
    case Some((first, rest)) =>
      if rest == [] then Some([first])
      else if !rest[0].And? then None
      else
        match Parse(rest[1..])
        case None => None
        case Some(others) => Some([first] + others)
  }

  /** An empty filter asks nothing. */
  function Read(filter: string): Option<seq<Term>> {
    if filter == "" then Some([])
    else
      match Lex(filter)
      case None => None
      case Some(tokens) => Parse(tokens)
  }

  // ---- what a filter means ----

  /** A document as the engine holds it, by the names of its fields. */
  type Document = map<string, Documents.Any>

  /** The texts a value gives a filter to compare with. */
  function TextsIn(v: Documents.Any): set<string> {
    match v
    case Text(text) => {text}
    case List(values) => set element | element in values && element.Text? :: element.text
    case _ => {}
  }

  function Field(d: Document, name: string): set<string> {
    if name in d then TextsIn(d[name]) else {}
  }

  predicate Fits(text: string, v: Operand) {
    text == v.text || (v.prefix && v.text <= text)
  }

  predicate Compares(d: Document, c: Comparison) {
    exists text, v | text in Field(d, c.field) && v in c.values :: Fits(text, v)
  }

  predicate Holds(d: Document, t: Term) {
    match t
    case One(c) => Compares(d, c)
    case Either(cs) => exists c | c in cs :: Compares(d, c)
  }

  predicate Selects(filter: string, d: Document) {
    Read(filter).Some? && forall t | t in Read(filter).value :: Holds(d, t)
  }

  // ---- printing ----

  datatype Collection = Products | Merchants | Orders

  predicate Printable(value: string) {
    '`' !in value && '\\' !in value && (value == "" || value[|value| - 1] != '*')
  }

  function Spell(t: Token): string {
    match t
    case Name(name) => name
    case Equals => ":="
    case Value(text, _) => "`" + text + "`"
    case Open => "("
    case Close => ")"
    case OpenList => "["
    case CloseList => "]"
    case Comma => ","
    case Or => " || "
    case And => " && "
  }

  function Spelled(ts: seq<Token>): string {
    if ts == [] then "" else Spell(ts[0]) + Spelled(ts[1..])
  }

  function Join(parts: seq<string>, separator: string): string {
    if parts == [] then ""
    else if |parts| == 1 then parts[0]
    else parts[0] + separator + Join(parts[1..], separator)
  }

  method Quote(value: string) returns (r: Result<string>)
    ensures r == if Printable(value) then Ok("`" + value + "`") else Refused
  {
    if ContainsAny(value, "`\\") || (|value| > 0 && value[|value| - 1] == '*') {
      return Refused;
    }
    return Ok("`" + value + "`");
  }

  predicate ContainsAny(value: string, chars: string) {
    exists i | 0 <= i < |value| :: value[i] in chars
  }

  // ---- the clauses of a query ----

  function Exactly(value: string): Operand {
    Operand(value, false)
  }

  function Operands(values: seq<string>): seq<Operand> {
    seq(|values|, i requires 0 <= i < |values| => Exactly(values[i]))
  }

  function PrincipalTerm(p: string): Term {
    Either([Comparison("buyer", [Exactly(p)]), Comparison("merchant_id", [Exactly(p)])])
  }

  function Others(q: Query): seq<Term> {
    (if q.merchant != "" then [One(Comparison("merchant_id", [Exactly(q.merchant)]))] else [])
    + (if q.categories != [] then [One(Comparison("categories", Operands(q.categories)))] else [])
  }

  function Clauses(collection: Collection, q: Query): seq<Term> {
    (if collection.Orders? && q.onBehalfOf != "" then [PrincipalTerm(q.onBehalfOf)] else []) + Others(q)
  }

  /** Every value the query would have printed can be. */
  predicate AllPrintable(collection: Collection, q: Query) {
    && (collection.Orders? && q.onBehalfOf != "" ==> Printable(q.onBehalfOf))
    && (q.merchant != "" ==> Printable(q.merchant))
    && (forall c | c in q.categories :: Printable(c))
  }

  function ListTokens(values: seq<string>): seq<Token> {
    if values == [] then []
    else if |values| == 1 then [Value(values[0], false)]
    else [Value(values[0], false), Comma] + ListTokens(values[1..])
  }

  function PrincipalTokens(p: string): seq<Token> {
    [Open, Name("buyer"), Equals] + ([Value(p, false), Or, Name("merchant_id")] + [Equals, Value(p, false), Close])
  }

  function MerchantTokens(m: string): seq<Token> {
    [Name("merchant_id"), Equals, Value(m, false)]
  }

  function CategoryTokens(values: seq<string>): seq<Token> {
    [Name("categories"), Equals, OpenList] + ListTokens(values) + [CloseList]
  }

  function Conjoined(parts: seq<seq<Token>>): seq<Token> {
    if parts == [] then []
    else if |parts| == 1 then parts[0]
    else parts[0] + [And] + Conjoined(parts[1..])
  }

  function ClauseTokens(collection: Collection, q: Query): seq<seq<Token>> {
    (if collection.Orders? && q.onBehalfOf != "" then [PrincipalTokens(q.onBehalfOf)] else [])
    + (if q.merchant != "" then [MerchantTokens(q.merchant)] else [])
    + (if q.categories != [] then [CategoryTokens(q.categories)] else [])
  }

  function Printed(collection: Collection, q: Query): string {
    Spelled(Conjoined(ClauseTokens(collection, q)))
  }

  lemma {:induction false} SpelledInParts(a: seq<Token>, b: seq<Token>)
    ensures Spelled(a + b) == Spelled(a) + Spelled(b)
  {
    if a == [] {
      assert a + b == b;
    } else {
      assert (a + b)[1..] == a[1..] + b;
      SpelledInParts(a[1..], b);
    }
  }

  lemma SpelledThree(a: Token, b: Token, c: Token)
    ensures Spelled([a, b, c]) == Spell(a) + Spell(b) + Spell(c)
  {
    assert [a, b, c][1..] == [b, c] && [b, c][1..] == [c] && [c][1..] == [];
    assert Spelled([c]) == Spell(c) + "" == Spell(c);
    assert Spell(a) + (Spell(b) + Spell(c)) == Spell(a) + Spell(b) + Spell(c);
  }

  lemma PrincipalSpelled(p: string)
    ensures Spelled(PrincipalTokens(p)) == "(buyer:=" + ("`" + p + "`") + " || merchant_id:=" + ("`" + p + "`") + ")"
  {
    hide Spelled, Spell;
    var v, value := Value(p, false), "`" + p + "`";
    var a, b, c := [Open, Name("buyer"), Equals], [v, Or, Name("merchant_id")], [Equals, v, Close];
    SpelledInParts(a, b + c);
    SpelledInParts(b, c);
    PrincipalParts(p);
    assert " || " + "merchant_id" + ":=" == " || merchant_id:=";
    Regrouped("(buyer:=", value, " || ", "merchant_id", ":=", ")");
  }

  lemma PrincipalParts(p: string)
    ensures Spelled([Open, Name("buyer"), Equals]) == "(buyer:="
    ensures Spelled([Value(p, false), Or, Name("merchant_id")]) == ("`" + p + "`") + " || " + "merchant_id"
    ensures Spelled([Equals, Value(p, false), Close]) == ":=" + ("`" + p + "`") + ")"
  {
    hide Spelled;
    SpelledThree(Open, Name("buyer"), Equals);
    assert "(" + "buyer" + ":=" == "(buyer:=";
    SpelledThree(Value(p, false), Or, Name("merchant_id"));
    SpelledThree(Equals, Value(p, false), Close);
  }

  lemma Regrouped(a: string, v: string, o: string, n: string, e: string, z: string)
    ensures a + ((v + o + n) + (e + v + z)) == a + v + (o + n + e) + v + z
  {
  }

  lemma MerchantSpelled(m: string)
    ensures Spelled(MerchantTokens(m)) == "merchant_id:=" + ("`" + m + "`")
  {
    SpelledThree(Name("merchant_id"), Equals, Value(m, false));
    assert "merchant_id" + ":=" == "merchant_id:=";
  }

  function Quoteds(values: seq<string>): seq<string> {
    seq(|values|, i requires 0 <= i < |values| => "`" + values[i] + "`")
  }

  lemma {:induction false} ListSpelled(values: seq<string>)
    ensures Spelled(ListTokens(values)) == Join(Quoteds(values), ",")
    decreases |values|
  {
    if |values| == 1 {
      assert ListTokens(values)[1..] == [];
      assert Quoteds(values) == ["`" + values[0] + "`"];
    } else if |values| > 1 {
      ListSpelled(values[1..]);
      assert Quoteds(values)[1..] == Quoteds(values[1..]);
      SpelledInParts([Value(values[0], false), Comma], ListTokens(values[1..]));
      assert [Value(values[0], false), Comma][1..] == [Comma] && [Comma][1..] == [];
    }
  }

  lemma CategoriesSpelled(values: seq<string>)
    ensures Spelled(CategoryTokens(values)) == "categories:=[" + Join(Quoteds(values), ",") + "]"
  {
    SpelledInParts([Name("categories"), Equals, OpenList] + ListTokens(values), [CloseList]);
    SpelledInParts([Name("categories"), Equals, OpenList], ListTokens(values));
    SpelledThree(Name("categories"), Equals, OpenList);
    ListSpelled(values);
    assert [CloseList][1..] == [];
    assert "categories" + ":=" + "[" == "categories:=[";
  }

  function SpelledAll(parts: seq<seq<Token>>): seq<string> {
    seq(|parts|, i requires 0 <= i < |parts| => Spelled(parts[i]))
  }

  lemma {:induction false} ConjoinedSpelled(parts: seq<seq<Token>>)
    ensures Spelled(Conjoined(parts)) == Join(SpelledAll(parts), " && ")
    decreases |parts|
  {
    hide Spell;
    if |parts| == 1 {
      assert SpelledAll(parts) == [Spelled(parts[0])];
    } else if |parts| > 1 {
      ConjoinedSpelled(parts[1..]);
      assert SpelledAll(parts)[1..] == SpelledAll(parts[1..]);
      SpelledInParts(parts[0] + [And], Conjoined(parts[1..]));
      SpelledInParts(parts[0], [And]);
      AndSpelled();
    }
  }

  lemma AndSpelled()
    ensures Spelled([And]) == " && "
  {
    assert [And][1..] == [];
  }

  /** The clauses one after the other, each value quoted or the whole filter refused. */
  method FilterFor(collection: Collection, q: Query) returns (r: Result<string>)
    ensures r == if AllPrintable(collection, q) then Ok(Printed(collection, q)) else Refused
  {
    hide Spelled, Join, PrincipalTokens, MerchantTokens, CategoryTokens, Conjoined, Quoteds;
    var clauses: seq<string> := [];
    if q.onBehalfOf != "" && collection == Orders {
      var p := Quote(q.onBehalfOf);
      if p.Refused? {
        return Refused;
      }
      PrincipalSpelled(q.onBehalfOf);
      clauses := clauses + ["(buyer:=" + p.value + " || merchant_id:=" + p.value + ")"];
    }
    if q.merchant != "" {
      var m := Quote(q.merchant);
      if m.Refused? {
        return Refused;
      }
      MerchantSpelled(q.merchant);
      clauses := clauses + ["merchant_id:=" + m.value];
    }
    if |q.categories| > 0 {
      var quoted := QuoteAll(q.categories);
      if quoted.Refused? {
        return Refused;
      }
      CategoriesSpelled(q.categories);
      clauses := clauses + ["categories:=[" + Join(quoted.value, ",") + "]"];
    }
    assert clauses == SpelledAll(ClauseTokens(collection, q));
    ConjoinedSpelled(ClauseTokens(collection, q));
    return Ok(Join(clauses, " && "));
  }

  method QuoteAll(values: seq<string>) returns (r: Result<seq<string>>)
    ensures r == if forall v | v in values :: Printable(v) then Ok(Quoteds(values)) else Refused
  {
    var quoted: seq<string> := [];
    while |quoted| < |values|
      invariant |quoted| <= |values| && quoted == Quoteds(values[..|quoted|])
      invariant forall i | 0 <= i < |quoted| :: Printable(values[i])
      decreases |values| - |quoted|
    {
      var v := Quote(values[|quoted|]);
      if v.Refused? {
        return Refused;
      }
      quoted := quoted + [v.value];
    }
    assert values[..|values|] == values;
    return Ok(quoted);
  }

  // ---- reading back what was printed ----

  lemma {:induction false} PlainIsRead(value: string, rest: string, read: string)
    requires '`' !in value && '\\' !in value
    ensures ReadQuoted(value + "`" + rest, read) == Some((read + value, rest))
    decreases |value|
  {
    var s := value + "`" + rest;
    if value == "" {
      assert s[0] == '`' && s[1..] == rest;
      assert read + value == read;
    } else {
      assert s[0] == value[0] && s[1..] == value[1..] + "`" + rest;
      PlainIsRead(value[1..], rest, read + [value[0]]);
      assert read + [value[0]] + value[1..] == read + value;
    }
  }

  /** What is read is never longer than what was quoted, and as long only if nothing in it was special. */
  lemma {:induction false} SpecialIsMisread(value: string, read: string)
    requires '`' in value || '\\' in value
    ensures var r := ReadQuoted(value + "`", read); r.Some? ==> |r.value.0| < |read| + |value|
    decreases |value|, 0
  {
    var s := value + "`";
    if value[0] == '`' {
    } else if value[0] != '\\' {
      assert s[1..] == value[1..] + "`";
      SpecialIsMisread(value[1..], read + [value[0]]);
    } else if |value| > 1 {
      assert s[2..] == value[2..] + "`";
      ReadIsNoLonger(value[2..], read + [value[1]]);
    } else {
      assert s[2..] == "";
    }
  }

  lemma {:induction false} ReadIsNoLonger(value: string, read: string)
    ensures var r := ReadQuoted(value + "`", read); r.Some? ==> |r.value.0| <= |read| + |value|
    decreases |value|, 1
  {
    if '`' in value || '\\' in value {
      SpecialIsMisread(value, read);
    } else {
      assert value + "`" + "" == value + "`";
      PlainIsRead(value, "", read);
    }
  }

  lemma LexQuoted(value: string, rest: string)
    requires Printable(value)
    ensures Lex("`" + value + "`" + rest) == Prepend(Value(value, false), Lex(rest))
  {
    var s := "`" + value + "`" + rest;
    assert s[0] == '`' && s[1..] == value + "`" + rest;
    PlainIsRead(value, rest, "");
    assert "" + value == value;
  }

  lemma PrependsFirst(t: Token, rest: Option<seq<Token>>, only: Token)
    ensures Prepend(t, rest) == Some([only]) ==> t == only
  {
    if Prepend(t, rest) == Some([only]) {
      assert ([t] + rest.value)[0] == t;
    }
  }

  /** A value is refused exactly when quoting it would have asked for something else. */
  lemma RefusedValuesWouldBeMisread(value: string)
    ensures Printable(value) <==> Lex("`" + value + "`") == Some([Value(value, false)])
  {
    var s := "`" + value + "`";
    assert s[1..] == value + "`";
    if Printable(value) {
      LexQuoted(value, "");
      assert s + "" == s && [Value(value, false)] + [] == [Value(value, false)];
    } else if '`' in value || '\\' in value {
      SpecialIsMisread(value, "");
      var r := ReadQuoted(value + "`", "");
      if r.Some? {
        PrependsFirst(Quoted(r.value.0), Lex(r.value.1), Value(value, false));
      }
    } else {
      PlainIsRead(value, "", "");
      assert value + "`" + "" == value + "`" && "" + value == value;
      PrependsFirst(Quoted(value), Lex(""), Value(value, false));
    }
  }

  lemma {:induction false} NameLengthIs(name: string, rest: string)
    requires forall c | c in name :: NameChar(c)
    requires rest == "" || !NameChar(rest[0])
    ensures NameLength(name + rest) == |name|
  {
    if name == "" {
      assert name + rest == rest;
    } else {
      assert (name + rest)[1..] == name[1..] + rest;
      NameLengthIs(name[1..], rest);
    }
  }

  lemma LexName(name: string, rest: string)
    requires name != "" && forall c | c in name :: NameChar(c)
    requires rest == "" || !NameChar(rest[0])
    ensures Lex(name + rest) == Prepend(Name(name), Lex(rest))
  {
    NameLengthIs(name, rest);
    assert (name + rest)[0] == name[0] && (name + rest)[..|name|] == name && (name + rest)[|name|..] == rest;
  }

  predicate Wellformed(t: Token) {
    match t
    case Name(name) => name != "" && forall c | c in name :: NameChar(c)
    case Value(text, prefix) => Printable(text) && !prefix
    case _ => true
  }

  lemma LexSpace(rest: string)
    ensures Lex(" " + rest) == Lex(rest)
  {
    assert (" " + rest)[1..] == rest;
  }

  lemma LexMark(mark: char, t: Token, rest: string)
    requires (mark, t) in {('(', Open), (')', Close), ('[', OpenList), (']', CloseList), (',', Comma)}
    ensures Lex([mark] + rest) == Prepend(t, Lex(rest))
  {
    assert ([mark] + rest)[1..] == rest;
  }

  lemma LexPair(pair: string, t: Token, rest: string)
    requires (pair, t) in {(":=", Equals), ("||", Or), ("&&", And)}
    ensures Lex(pair + rest) == Prepend(t, Lex(rest))
  {
    assert (pair + rest)[..2] == pair && (pair + rest)[2..] == rest && (pair + rest)[0] == pair[0];
  }

  lemma LexSpaced(pair: string, t: Token, rest: string)
    requires (pair, t) in {("||", Or), ("&&", And)}
    ensures Lex(" " + pair + " " + rest) == Prepend(t, Lex(rest))
  {
    assert " " + pair + " " + rest == " " + (pair + (" " + rest));
    LexSpace(pair + (" " + rest));
    LexPair(pair, t, " " + rest);
    LexSpace(rest);
  }

  lemma LexOne(t: Token, rest: string)
    requires Wellformed(t) && (t.Name? && rest != "" ==> !NameChar(rest[0]))
    ensures Lex(Spell(t) + rest) == Prepend(t, Lex(rest))
  {
    match t
    case Name(name) => LexName(name, rest);
    case Value(text, _) => LexQuoted(text, rest);
    case Equals => LexPair(":=", t, rest);
    case Or =>
      assert Spell(t) == " " + "||" + " ";
      LexSpaced("||", t, rest);
    case And =>
      assert Spell(t) == " " + "&&" + " ";
      LexSpaced("&&", t, rest);
    case Open => LexMark('(', t, rest);
    case Close => LexMark(')', t, rest);
    case OpenList => LexMark('[', t, rest);
    case CloseList => LexMark(']', t, rest);
    case Comma => LexMark(',', t, rest);
  }

  ghost predicate Readable(ts: seq<Token>) {
    && (forall t | t in ts :: Wellformed(t))
    && (forall i | 0 <= i < |ts| - 1 :: ts[i].Name? ==> !ts[i + 1].Name?)
  }

  /** The reader takes a printed list of tokens apart into the same tokens. */
  lemma {:induction false} LexSpelled(ts: seq<Token>)
    requires Readable(ts)
    ensures Lex(Spelled(ts)) == Some(ts)
    decreases |ts|
  {
    if ts != [] {
      var rest := Spelled(ts[1..]);
      assert Readable(ts[1..]) by {
        assert forall i | 0 <= i < |ts| - 1 :: ts[1..][i] == ts[i + 1];
      }
      LexSpelled(ts[1..]);
      if |ts| > 1 {
        assert ts[1..][0] == ts[1] && rest == Spell(ts[1]) + Spelled(ts[1..][1..]);
      }
      LexOne(ts[0], rest);
      assert ts == [ts[0]] + ts[1..];
    }
  }

  lemma {:induction false} ListIsParsed(values: seq<string>, rest: seq<Token>)
    requires values != []
    ensures ParseValues(ListTokens(values) + [CloseList] + rest) == Some((Operands(values), rest))
    decreases |values|
  {
    hide ParseValues, Operands;
    OperandsInOrder(values);
    if |values| == 1 {
      LastValue(values[0], rest);
      Together([Value(values[0], false)], [], [CloseList], rest);
    } else {
      ListIsParsed(values[1..], rest);
      OneMoreValue(values[0], ListTokens(values[1..]) + [CloseList] + rest, Operands(values[1..]), rest);
      Together([Value(values[0], false), Comma], ListTokens(values[1..]), [CloseList], rest);
    }
  }

  lemma Together(a: seq<Token>, b: seq<Token>, c: seq<Token>, d: seq<Token>)
    ensures a + b + c + d == a + (b + c + d)
    ensures b == [] ==> a + b == a && b + c == c
    ensures |a| == |c| == 1 && b == [] ==> a + c + d == [a[0], c[0]] + d
  {
  }

  lemma OperandsInOrder(values: seq<string>)
    requires values != []
    ensures Operands(values) == [Exactly(values[0])] + Operands(values[1..])
    ensures |values| == 1 ==> Operands(values) == [Exactly(values[0])]
  {
  }

  lemma LastValue(value: string, rest: seq<Token>)
    ensures ParseValues([Value(value, false), CloseList] + rest) == Some(([Exactly(value)], rest))
  {
    assert ([Value(value, false), CloseList] + rest)[2..] == rest;
  }

  lemma OneMoreValue(value: string, others: seq<Token>, operands: seq<Operand>, rest: seq<Token>)
    requires ParseValues(others) == Some((operands, rest))
    ensures ParseValues([Value(value, false), Comma] + others) == Some(([Exactly(value)] + operands, rest))
  {
    assert ([Value(value, false), Comma] + others)[2..] == others;
  }

  lemma ValueIsParsed(field: string, value: string, rest: seq<Token>)
    ensures ParseComparison([Name(field), Equals, Value(value, false)] + rest)
            == Some((Comparison(field, [Exactly(value)]), rest))
  {
    assert ([Name(field), Equals, Value(value, false)] + rest)[3..] == rest;
  }

  lemma CategoriesAreParsed(values: seq<string>, rest: seq<Token>)
    requires values != []
    ensures ParseTerm(CategoryTokens(values) + rest) == Some((One(Comparison("categories", Operands(values))), rest))
  {
    var ts := CategoryTokens(values) + rest;
    assert ts[3..] == ListTokens(values) + [CloseList] + rest;
    ListIsParsed(values, rest);
  }

  lemma MerchantIsParsed(m: string, rest: seq<Token>)
    ensures ParseTerm(MerchantTokens(m) + rest) == Some((One(Comparison("merchant_id", [Exactly(m)])), rest))
  {
    ValueIsParsed("merchant_id", m, rest);
  }

  lemma PrincipalIsParsed(p: string, rest: seq<Token>)
    ensures ParseTerm(PrincipalTokens(p) + rest) == Some((PrincipalTerm(p), rest))
  {
    var ts, v := PrincipalTokens(p) + rest, Value(p, false);
    var second := [Name("merchant_id"), Equals, v] + ([Close] + rest);
    assert ts[1..] == [Name("buyer"), Equals, v] + ([Or] + second);
    ValueIsParsed("buyer", p, [Or] + second);
    assert ([Or] + second)[1..] == second;
    ValueIsParsed("merchant_id", p, [Close] + rest);
    assert ([Close] + rest)[1..] == rest;
    assert ParseEither(second) == Some(([Comparison("merchant_id", [Exactly(p)])], rest));
    assert [Comparison("buyer", [Exactly(p)])] + [Comparison("merchant_id", [Exactly(p)])] == PrincipalTerm(p).comparisons;
    assert ParseEither(ts[1..]) == Some((PrincipalTerm(p).comparisons, rest));
  }

  /** Clause by clause: what a clause's tokens parse to. */
  ghost predicate Parses(parts: seq<seq<Token>>, terms: seq<Term>) {
    && |parts| == |terms|
    && forall i, rest | 0 <= i < |parts| :: ParseTerm(parts[i] + rest) == Some((terms[i], rest))
  }

  lemma {:induction false} ConjunctionIsParsed(parts: seq<seq<Token>>, terms: seq<Term>)
    requires Parses(parts, terms) && parts != []
    ensures Parse(Conjoined(parts)) == Some(terms)
    decreases |parts|
  {
    if |parts| == 1 {
      assert parts[0] + [] == parts[0];
      assert ParseTerm(parts[0] + []) == Some((terms[0], []));
      assert terms == [terms[0]];
    } else {
      var rest := [And] + Conjoined(parts[1..]);
      assert parts[0] + [And] + Conjoined(parts[1..]) == parts[0] + rest;
      assert ParseTerm(parts[0] + rest) == Some((terms[0], rest));
      assert Parses(parts[1..], terms[1..]) by {
        assert forall i | 0 <= i < |parts| - 1 :: parts[1..][i] == parts[i + 1] && terms[1..][i] == terms[i + 1];
      }
      ConjunctionIsParsed(parts[1..], terms[1..]);
      assert rest[1..] == Conjoined(parts[1..]);
      assert terms == [terms[0]] + terms[1..];
    }
  }

  lemma ClausesParse(collection: Collection, q: Query)
    ensures Parses(ClauseTokens(collection, q), Clauses(collection, q))
  {
    var parts, terms := ClauseTokens(collection, q), Clauses(collection, q);
    forall i, rest | 0 <= i < |parts| ensures ParseTerm(parts[i] + rest) == Some((terms[i], rest)) {
      PrincipalIsParsed(q.onBehalfOf, rest);
      MerchantIsParsed(q.merchant, rest);
      if q.categories != [] {
        CategoriesAreParsed(q.categories, rest);
      }
    }
  }

  // ---- every printed filter can be lexed ----

  lemma ReadableTogether(a: seq<Token>, b: seq<Token>)
    requires Readable(a) && Readable(b) && a != [] && !a[|a| - 1].Name?
    ensures Readable(a + b)
  {
    forall i | 0 <= i < |a + b| - 1 && (a + b)[i].Name? ensures !(a + b)[i + 1].Name? {
      if i < |a| - 1 {
        assert (a + b)[i] == a[i] && (a + b)[i + 1] == a[i + 1];
      } else if i >= |a| {
        assert (a + b)[i] == b[i - |a|] && (a + b)[i + 1] == b[i + 1 - |a|];
      }
    }
  }

  lemma {:induction false} ListIsReadable(values: seq<string>)
    requires values != [] && forall v | v in values :: Printable(v)
    ensures Readable(ListTokens(values)) && ListTokens(values) != []
    ensures !ListTokens(values)[|ListTokens(values)| - 1].Name?
    decreases |values|
  {
    if |values| > 1 {
      ListIsReadable(values[1..]);
      ReadableTogether([Value(values[0], false), Comma], ListTokens(values[1..]));
    }
  }

  ghost predicate Complete(ts: seq<Token>) {
    Readable(ts) && ts != [] && !ts[|ts| - 1].Name?
  }

  lemma NamesAreNames()
    ensures Wellformed(Name("buyer")) && Wellformed(Name("merchant_id")) && Wellformed(Name("categories"))
  {
  }

  lemma ClausesAreReadable(collection: Collection, q: Query)
    requires AllPrintable(collection, q)
    ensures forall part | part in ClauseTokens(collection, q) :: Complete(part)
  {
    NamesAreNames();
    if q.categories != [] {
      ListIsReadable(q.categories);
      ReadableTogether([Name("categories"), Equals, OpenList], ListTokens(q.categories));
      ReadableTogether([Name("categories"), Equals, OpenList] + ListTokens(q.categories), [CloseList]);
    }
  }

  lemma {:induction false} ConjunctionIsReadable(parts: seq<seq<Token>>)
    requires parts != [] && forall part | part in parts :: Complete(part)
    ensures Complete(Conjoined(parts))
    decreases |parts|
  {
    assert parts[0] in parts;
    if |parts| > 1 {
      ConjunctionIsReadable(parts[1..]);
      ReadableTogether(parts[0], [And]);
      ReadableTogether(parts[0] + [And], Conjoined(parts[1..]));
    }
  }

  lemma NothingPrinted(ts: seq<Token>)
    requires ts != []
    requires Wellformed(ts[0])
    ensures Spelled(ts) != ""
  {
    assert Spell(ts[0]) != "";
  }

  /** The reader recovers exactly the clauses of every query that is printed. */
  lemma PrintedIsReadBack(collection: Collection, q: Query)
    requires AllPrintable(collection, q)
    ensures Read(Printed(collection, q)) == Some(Clauses(collection, q))
  {
    var parts := ClauseTokens(collection, q);
    if parts != [] {
      ClausesAreReadable(collection, q);
      ConjunctionIsReadable(parts);
      LexSpelled(Conjoined(parts));
      NothingPrinted(Conjoined(parts));
      ClausesParse(collection, q);
      ConjunctionIsParsed(parts, Clauses(collection, q));
    }
  }

  datatype Question = Question(principal: string, merchant: string, categories: seq<string>)

  /** The part of a query a collection's filter depends on; an identifier is zero when it is empty. */
  function Asked(collection: Collection, q: Query): Question {
    Question(if collection.Orders? then q.onBehalfOf else "", q.merchant, q.categories)
  }

  lemma OperandsTell(a: seq<string>, b: seq<string>)
    requires Operands(a) == Operands(b)
    ensures a == b
  {
    assert |a| == |b|;
    forall i | 0 <= i < |a| ensures a[i] == b[i] {
      assert Operands(a)[i] == Operands(b)[i];
    }
  }

  lemma ClausesTell(collection: Collection, q: Query, q': Query)
    requires Clauses(collection, q) == Clauses(collection, q')
    ensures Asked(collection, q) == Asked(collection, q')
  {
    var a, b := Asked(collection, q), Asked(collection, q');
    var terms := Clauses(collection, q);
    assert a.principal != "" <==> terms != [] && terms[0].Either?;
    assert b.principal != "" <==> terms != [] && terms[0].Either?;
    if a.principal != "" {
      assert terms[0] == PrincipalTerm(a.principal) == PrincipalTerm(b.principal);
      assert PrincipalTerm(a.principal).comparisons[0].values[0].text == a.principal;
    }
    var rest := if a.principal != "" then terms[1..] else terms;
    MerchantTells(q, rest);
    MerchantTells(q', rest);
    OperandsTell(a.categories, b.categories);
  }

  lemma MerchantTells(q: Query, terms: seq<Term>)
    requires terms == Others(q)
    ensures q.merchant != "" <==> terms != [] && terms[0].One? && terms[0].comparison.field == "merchant_id"
    ensures q.merchant != "" ==> terms[0].comparison.values == [Exactly(q.merchant)]
    ensures Operands(q.categories) ==
            if terms != [] && terms[|terms| - 1].One? && terms[|terms| - 1].comparison.field == "categories"
            then terms[|terms| - 1].comparison.values else []
  {
    assert "merchant_id" != "categories" by {
      assert "merchant_id"[0] != "categories"[0];
    }
  }

  /** Two queries get the same filter only if they ask the same. */
  lemma FiltersTellQueriesApart(collection: Collection, q: Query, q': Query)
    requires AllPrintable(collection, q) && AllPrintable(collection, q')
    requires Printed(collection, q) == Printed(collection, q')
    ensures Asked(collection, q) == Asked(collection, q')
  {
    PrintedIsReadBack(collection, q);
    PrintedIsReadBack(collection, q');
    ClausesTell(collection, q, q');
  }

  // ---- what a printed filter selects ----

  lemma ComparesExactly(d: Document, field: string, value: string)
    ensures Compares(d, Comparison(field, [Exactly(value)])) <==> value in Field(d, field)
  {
    var c := Comparison(field, [Exactly(value)]);
    if value in Field(d, field) {
      assert Exactly(value) in c.values && Fits(value, Exactly(value));
    }
  }

  lemma ComparesAny(d: Document, field: string, values: seq<string>)
    ensures Compares(d, Comparison(field, Operands(values))) <==> exists v | v in values :: v in Field(d, field)
  {
    var c := Comparison(field, Operands(values));
    if v :| v in values && v in Field(d, field) {
      var i :| 0 <= i < |values| && values[i] == v;
      assert Operands(values)[i] == Exactly(v);
      assert Exactly(v) in c.values && Fits(v, Exactly(v));
    }
  }

  lemma HoldsPrincipal(d: Document, p: string)
    ensures Holds(d, PrincipalTerm(p)) <==> p in Field(d, "buyer") || p in Field(d, "merchant_id")
  {
    var cs := PrincipalTerm(p).comparisons;
    ComparesExactly(d, "buyer", p);
    ComparesExactly(d, "merchant_id", p);
    assert cs[0] in cs && cs[1] in cs;
  }

  /** Find refuses to search orders on nobody's behalf. */
  predicate Guarded(collection: Collection, q: Query) {
    collection.Orders? ==> q.onBehalfOf != ""
  }

  /** What may be found: for orders only what the principal bought or sold, and always what was asked for. */
  predicate Wanted(collection: Collection, q: Query, d: Document) {
    && (collection.Orders? ==> q.onBehalfOf in Field(d, "buyer") || q.onBehalfOf in Field(d, "merchant_id"))
    && (q.merchant != "" ==> q.merchant in Field(d, "merchant_id"))
    && (q.categories != [] ==> exists c | c in q.categories :: c in Field(d, "categories"))
  }

  lemma AFilterMeansItsQuery(collection: Collection, q: Query, d: Document)
    requires AllPrintable(collection, q) && Guarded(collection, q)
    ensures Selects(Printed(collection, q), d) <==> Wanted(collection, q, d)
  {
    PrintedIsReadBack(collection, q);
    HoldsPrincipal(d, q.onBehalfOf);
    var principal := if collection.Orders? then [PrincipalTerm(q.onBehalfOf)] else [];
    assert Clauses(collection, q) == principal + Others(q);
    assert collection.Orders? ==> principal[0] in principal;
    SelectsOthers(q, d);
  }

  lemma SelectsOthers(q: Query, d: Document)
    ensures (forall t | t in Others(q) :: Holds(d, t)) <==>
            && (q.merchant != "" ==> q.merchant in Field(d, "merchant_id"))
            && (q.categories != [] ==> exists c | c in q.categories :: c in Field(d, "categories"))
  {
    var merchant := One(Comparison("merchant_id", [Exactly(q.merchant)]));
    var categories := One(Comparison("categories", Operands(q.categories)));
    ComparesExactly(d, "merchant_id", q.merchant);
    ComparesAny(d, "categories", q.categories);
    assert q.merchant != "" ==> merchant in Others(q);
    assert q.categories != [] ==> categories in Others(q);
    assert forall t | t in Others(q) :: (q.merchant != "" && t == merchant) || (q.categories != [] && t == categories);
  }

  // ---- which queries cannot be printed ----

  function ValuesOf(t: Term): set<string> {
    match t
    case One(c) => set v | v in c.values :: v.text
    case Either(cs) => set c, v | c in cs && v in c.values :: v.text
  }

  predicate ReadsAsItself(value: string) {
    Lex("`" + value + "`") == Some([Value(value, false)])
  }

  /** A query's filter is refused exactly when some value of its clauses would be read as something else. */
  lemma RefusedQueriesWouldBeMisread(collection: Collection, q: Query)
    ensures AllPrintable(collection, q) <==>
            forall t, v | t in Clauses(collection, q) && v in ValuesOf(t) :: ReadsAsItself(v)
  {
    hide AllPrintable, Clauses, ValuesOf, Printable, ReadsAsItself, ValuesAsked;
    AllAskedPrintable(collection, q);
    ValuesOfClauses(collection, q);
    forall v: string ensures Printable(v) <==> ReadsAsItself(v) {
      AValueReads(v);
    }
  }

  lemma AValueReads(value: string)
    ensures Printable(value) <==> ReadsAsItself(value)
  {
    RefusedValuesWouldBeMisread(value);
  }

  lemma AllAskedPrintable(collection: Collection, q: Query)
    ensures AllPrintable(collection, q) <==> forall v | v in ValuesAsked(collection, q) :: Printable(v)
  {
    hide Printable;
  }

  function ValuesAsked(collection: Collection, q: Query): set<string> {
    (if collection.Orders? && q.onBehalfOf != "" then {q.onBehalfOf} else {})
    + (if q.merchant != "" then {q.merchant} else {}) + (set c | c in q.categories)
  }

  lemma ValuesOfClauses(collection: Collection, q: Query)
    ensures forall v :: v in ValuesAsked(collection, q) <==> exists t :: t in Clauses(collection, q) && v in ValuesOf(t)
  {
    var terms := Clauses(collection, q);
    var principal, merchant := PrincipalTerm(q.onBehalfOf), One(Comparison("merchant_id", [Exactly(q.merchant)]));
    var categories := One(Comparison("categories", Operands(q.categories)));
    PrincipalValues(q.onBehalfOf);
    MerchantValues(q.merchant);
    CategoryValues(q.categories);
    assert collection.Orders? && q.onBehalfOf != "" ==> terms[0] == principal && principal in terms;
    assert q.merchant != "" ==> merchant in Others(q) && merchant in terms;
    assert q.categories != [] ==> categories in Others(q) && categories in terms;
    assert forall t | t in terms :: (collection.Orders? && q.onBehalfOf != "" && t == principal)
                                    || (q.merchant != "" && t == merchant) || (q.categories != [] && t == categories);
  }

  lemma PrincipalValues(p: string)
    ensures ValuesOf(PrincipalTerm(p)) == {p}
  {
    var c := Comparison("buyer", [Exactly(p)]);
    assert PrincipalTerm(p).comparisons[0] == c && Exactly(p) in c.values;
    assert c in PrincipalTerm(p).comparisons;
  }

  lemma MerchantValues(m: string)
    ensures ValuesOf(One(Comparison("merchant_id", [Exactly(m)]))) == {m}
  {
    assert Exactly(m) in [Exactly(m)];
  }

  lemma CategoryValues(values: seq<string>)
    ensures ValuesOf(One(Comparison("categories", Operands(values)))) == set c | c in values
  {
    forall c | c in values ensures Exactly(c) in Operands(values) {
      var i :| 0 <= i < |values| && values[i] == c;
      assert Operands(values)[i] == Exactly(c);
    }
  }
}
