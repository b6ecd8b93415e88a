/** JavaScript's `parseInt` with no radix, as the public API routes use it on
    query parameters. `None` stands for `NaN`. */
module JsParse {
  import opened Common
  import opened Text

  predicate IsDigit(c: char)
  {
    '0' <= c <= '9'
  }

  predicate IsHex(c: char)
  {
    IsDigit(c) || 'a' <= c <= 'f' || 'A' <= c <= 'F'
  }

  function HexDigitValue(c: char): (v: nat)
    requires IsHex(c)
    ensures v < 16
  {
    if IsDigit(c) then c as nat - '0' as nat
    else if 'a' <= c <= 'f' then c as nat - 'a' as nat + 10
    else c as nat - 'A' as nat + 10
  }

  /** The longest prefix of `s` whose characters satisfy the radix's digit test. */
  function DigitPrefix(s: string, hex: bool): (r: string)
    ensures r <= s
    ensures forall i :: 0 <= i < |r| ==> (if hex then IsHex(r[i]) else IsDigit(r[i]))
    ensures |r| < |s| ==> !(if hex then IsHex(s[|r|]) else IsDigit(s[|r|]))
  {
    if s != [] && (if hex then IsHex(s[0]) else IsDigit(s[0])) then [s[0]] + DigitPrefix(s[1..], hex)
    else []
  }

  /** The value of a string of digits in base 10 or 16. */
  function DigitsValue(ds: string, hex: bool): nat
    requires forall i :: 0 <= i < |ds| ==> (if hex then IsHex(ds[i]) else IsDigit(ds[i]))
  {
    if ds == [] then 0
    else DigitsValue(ds[..|ds| - 1], hex) * (if hex then 16 else 10) + HexDigitValue(ds[|ds| - 1])
  }

  /** The digits after the sign: a `0x` or `0X` prefix selects base 16, and
      the longest run of digits is read. No digit at all is `NaN`. */
  function ParseUnsigned(u: string): (r: Option<nat>)
  {
    var hex := |u| >= 2 && u[0] == '0' && (u[1] == 'x' || u[1] == 'X');
    var ds := DigitPrefix(if hex then u[2..] else u, hex);
    if ds == [] then None else Some(DigitsValue(ds, hex))
  }

  /** `parseInt(s)`: leading white space is skipped and one sign is read
      before the digits; the rest of the text is ignored. */
  function ParseInt(s: string): (r: Option<int>)
  {
    var t := TrimStart(s);
    if t != [] && t[0] == '-' then
      match ParseUnsigned(t[1..])
      case None => None
      case Some(v) => Some(0 - v)
    else if t != [] && t[0] == '+' then
      match ParseUnsigned(t[1..])
      case None => None
      case Some(v) => Some(v)
    else
      match ParseUnsigned(t)
      case None => None
      case Some(v) => Some(v)
  }

  /** The decimal text of a natural number, as `String(n)` writes it. */
  function ShowNat(n: nat): (s: string)
    ensures |s| >= 1
    ensures forall i :: 0 <= i < |s| ==> IsDigit(s[i])
  {
    if n < 10 then [('0' as int + n) as char]
    else ShowNat(n / 10) + [('0' as int + n % 10) as char]
  }

  lemma {:induction false} ShowNatValue(n: nat)
    ensures DigitsValue(ShowNat(n), false) == n
  {
    if n >= 10 {
      var s := ShowNat(n);
      assert s[..|s| - 1] == ShowNat(n / 10);
      ShowNatValue(n / 10);
    }
  }

  lemma {:induction false} DigitPrefixOfDigits(s: string)
    requires forall i :: 0 <= i < |s| ==> IsDigit(s[i])
    ensures DigitPrefix(s, false) == s
  {
    if s != [] {
      DigitPrefixOfDigits(s[1..]);
    }
  }

  /** Decimal text without a sign reads as its value. */
  lemma {:induction false} ParseDigits(s: string)
    requires s != [] && forall i :: 0 <= i < |s| ==> IsDigit(s[i])
    ensures ParseUnsigned(s) == Some(DigitsValue(s, false))
  {
    assert |s| >= 2 ==> s[1] != 'x' && s[1] != 'X';
    DigitPrefixOfDigits(s);
  }

  /** Text that starts with a digit is read without sign or blank. */
  lemma {:induction false} ParseFromDigit(s: string)
    requires s != [] && IsDigit(s[0])
    ensures ParseInt(s) == (match ParseUnsigned(s) case None => None case Some(v) => Some(v))
  {
    TrimStartNoSpace(s);
  }

  /** A leading minus negates what follows. */
  lemma {:induction false} ParseNegated(s: string)
    requires s != [] && IsDigit(s[0])
    ensures ParseInt("-" + s) == (match ParseUnsigned(s) case None => None case Some(v) => Some(0 - v))
  {
    var m := "-" + s;
    assert m[0] == '-' && !IsSpace(m[0]);
    assert TrimStart(m) == m;
    assert m[1..] == s;
  }

  /** `parseInt` reads back what `String` writes, for every natural number. */
  lemma {:induction false} ParseShowNat(n: nat)
    ensures ParseInt(ShowNat(n)) == Some(n)
  {
    var s := ShowNat(n);
    ShowNatValue(n);
    ParseDigits(s);
    ParseFromDigit(s);
  }

  /** ... and its negation. */
  lemma {:induction false} ParseShowNegated(n: nat)
    ensures ParseInt("-" + ShowNat(n)) == Some(0 - n)
  {
    var s := ShowNat(n);
    ShowNatValue(n);
    ParseDigits(s);
    assert ParseUnsigned(s) == Some(n);
    ParseNegated(s);
  }

  lemma {:induction false} DigitPrefixStops(d: string, rest: string)
    requires forall i :: 0 <= i < |d| ==> IsDigit(d[i])
    requires rest == [] || !IsDigit(rest[0])
    ensures DigitPrefix(d + rest, false) == d
  {
    if d != [] {
      assert (d + rest)[1..] == d[1..] + rest;
      DigitPrefixStops(d[1..], rest);
    } else {
      assert d + rest == rest;
    }
  }

  /** Without a `0x` prefix the digits are decimal. */
  lemma ParseDecimal(u: string)
    requires |u| < 2 || u[0] != '0' || (u[1] != 'x' && u[1] != 'X')
    ensures ParseUnsigned(u) == (if DigitPrefix(u, false) == [] then None else Some(DigitsValue(DigitPrefix(u, false), false)))
  {
  }

  /** `parseInt` reads the leading digits and ignores the rest of the text. */
  lemma ParseStopsAtNonDigit(d: string, rest: string)
    requires d != [] && forall i :: 0 <= i < |d| ==> IsDigit(d[i])
    requires rest == [] || !IsDigit(rest[0])
    requires !(|d| == 1 && d[0] == '0' && rest != [] && (rest[0] == 'x' || rest[0] == 'X'))
    ensures ParseInt(d + rest) == Some(DigitsValue(d, false))
  {
    var s := d + rest;
    assert s[0] == d[0];
    assert |s| < 2 || s[0] != '0' || (s[1] != 'x' && s[1] != 'X') by {
      if |s| >= 2 {
        if |d| >= 2 {
          assert s[1] == d[1];
        } else {
          assert s[1] == rest[0];
        }
      }
    }
    ParseDecimal(s);
    DigitPrefixStops(d, rest);
    ParseFromDigit(s);
  }

  /** Text without digits is `NaN`, and so is a bare `0x`. */
  lemma ParseNaN()
    ensures ParseInt("all") == None
  {
    var s := "all";
    assert s[0] == 'a' && !IsSpace(s[0]) && !IsDigit(s[0]);
    assert TrimStart(s) == s;
    assert DigitPrefix(s, false) == [];
  }

  lemma ParseBareHexPrefix()
    ensures ParseInt("0x") == None
  {
    var s := "0x";
    assert s[0] == '0' && !IsSpace(s[0]);
    assert TrimStart(s) == s;
    assert s[2..] == [];
  }

  /** After `0x` the digits are hexadecimal. */
  lemma ParseHex()
    ensures ParseInt("0x1f") == Some(31)
  {
    var s := "0x1f";
    assert TrimStart(s) == s;
    assert s[2..] == "1f";
    assert DigitPrefix("f", true) == "f";
    assert DigitPrefix("1f", true) == "1f";
    assert "1f"[..1] == "1";
    assert DigitsValue("1", true) == 1;
  }
}

/** `GET /api/v1/models` of `src/app/api/v1/models/route.ts`: the page window
    from `limit` and `offset`, the filter clauses and their parameters, the
    count query and the pagination echo. Rows and the count come from the
    database and are parameters. */
module ModelsApi {
  import opened Common
  import opened Text
  import opened JsParse
  import opened ApiResponse

  /** Query-string parameters by name; an absent one has no entry. */
  type Query = map<string, string>

  /** `searchParams.get(name)` as an optional string. */
  function Get(q: Query, name: string): (r: Option<string>)
    ensures r.Some? <==> name in q
    ensures r.Some? ==> r.value == q[name]
  {
    if name in q then Some(q[name]) else None
  }

  /** `searchParams.get(name) || fallback`: absent and empty both take the fallback. */
  function ParamOr(q: Query, name: string, fallback: string): (r: string)
    ensures Present(Get(q, name)) ==> r == q[name]
    ensures !Present(Get(q, name)) ==> r == fallback
  {
    if name in q && q[name] != "" then q[name] else fallback
  }

  /** `Math.min(x, 100)`, where a `NaN` stays `NaN`. */
  function MinOr100(x: Option<int>): (r: Option<int>)
    ensures r.Some? <==> x.Some?
    ensures r.Some? ==> r.value <= 100 && r.value <= x.value && (r.value == x.value || r.value == 100)
  {
    if x.None? then None else Some(if x.value < 100 then x.value else 100)
  }

  /** The page size: at most 100, 50 when the parameter is absent or empty. */
  function Limit(q: Query): (r: Option<int>)
    ensures !Present(Get(q, "limit")) ==> r == Some(50)
    ensures Present(Get(q, "limit")) ==> r == MinOr100(ParseInt(q["limit"]))
    ensures r.Some? ==> r.value <= 100
  {
    ParseShowFifty();
    MinOr100(ParseInt(ParamOr(q, "limit", "50")))
  }

  /** The first row, 0 when the parameter is absent or empty. */
  function Offset(q: Query): (r: Option<int>)
    ensures !Present(Get(q, "offset")) ==> r == Some(0)
    ensures Present(Get(q, "offset")) ==> r == ParseInt(q["offset"])
  {
    ParseShowZero();
    ParseInt(ParamOr(q, "offset", "0"))
  }

  /** The default texts read as their numbers. */
  lemma ParseShowFifty()
    ensures ParseInt("50") == Some(50)
  {
    assert ShowNat(50) == "50" by {
      assert ShowNat(5) == "5";
    }
    ParseShowNat(50);
  }

  lemma ParseShowZero()
    ensures ParseInt("0") == Some(0)
  {
    assert ShowNat(0) == "0";
    ParseShowNat(0);
  }

  /** A bound SQL parameter: a string, or a number that may be `NaN`. */
  datatype Param = PStr(s: string) | PNum(n: Option<int>)

  /** A piece of SQL text: literal text, or a `?` placeholder. */
  datatype Fragment = Lit(text: string) | Mark

  const SelectModels: seq<Fragment> := [Lit("SELECT id, name, provider, category, context_length, current_performance, current_intelligence, total_votes, ROUND((current_performance + current_intelligence) / 2, 2) as overall_score, updated_at FROM models WHERE 1=1")]
  const CountModels: seq<Fragment> := [Lit("SELECT COUNT(*) as total FROM models WHERE 1=1")]
  const CategoryClause: seq<Fragment> := [Lit(" AND category = "), Mark]
  const ProviderClause: seq<Fragment> := [Lit(" AND provider = "), Mark]
  const OrderClause: seq<Fragment> := [Lit(" ORDER BY overall_score DESC, total_votes DESC")]
  const PageClause: seq<Fragment> := [Lit(" LIMIT "), Mark, Lit(" OFFSET "), Mark]

  /** The number of placeholders in a statement. */
  function Placeholders(s: seq<Fragment>): nat
  {
    if s == [] then 0 else Placeholders(s[..|s| - 1]) + (if s[|s| - 1] == Mark then 1 else 0)
  }

  lemma {:induction false} PlaceholdersAppend(a: seq<Fragment>, b: seq<Fragment>)
    ensures Placeholders(a + b) == Placeholders(a) + Placeholders(b)
    decreases |b|
  {
    if b == [] {
      assert a + b == a;
    } else {
      assert (a + b)[..|a + b| - 1] == a + b[..|b| - 1];
      PlaceholdersAppend(a, b[..|b| - 1]);
    }
  }

  lemma PlaceholdersOfLit(t: string)
    ensures Placeholders([Lit(t)]) == 0
  {
    assert [Lit(t)][..0] == [];
  }

  lemma PlaceholdersOfClause(t: string)
    ensures Placeholders([Lit(t), Mark]) == 1
  {
    assert [Lit(t), Mark][..1] == [Lit(t)];
    PlaceholdersOfLit(t);
  }

  /** The filter parameters, in the order their clauses are added. */
  function FilterParams(category: Option<string>, provider: Option<string>): (ps: seq<Param>)
    ensures |ps| == (if Present(category) then 1 else 0) + (if Present(provider) then 1 else 0)
    ensures Present(category) ==> ps[0] == PStr(category.value)
    ensures Present(provider) ==> ps[|ps| - 1] == PStr(provider.value)
  {
    (if Present(category) then [PStr(category.value)] else [])
    + (if Present(provider) then [PStr(provider.value)] else [])
  }

  /** The filter clauses, each added iff its parameter is truthy. */
  function FilterClauses(category: Option<string>, provider: Option<string>): seq<Fragment>
  {
    (if Present(category) then CategoryClause else []) + (if Present(provider) then ProviderClause else [])
  }

  /** The page query, as the route assembles it. */
  function ModelsSql(category: Option<string>, provider: Option<string>): seq<Fragment>
  {
    SelectModels + FilterClauses(category, provider) + OrderClause + PageClause
  }

  /** The count query, with the same filter clauses and no page clause. */
  function CountSql(category: Option<string>, provider: Option<string>): seq<Fragment>
  {
    CountModels + FilterClauses(category, provider)
  }

  lemma FilterPlaceholders(category: Option<string>, provider: Option<string>)
    ensures Placeholders(FilterClauses(category, provider)) == |FilterParams(category, provider)|
  {
    PlaceholdersOfClause(" AND category = ");
    PlaceholdersOfClause(" AND provider = ");
    PlaceholdersAppend(if Present(category) then CategoryClause else [], if Present(provider) then ProviderClause else []);
  }

  /** Builds the page query as the route does, clause by clause, pushing each
      parameter with its clause. */
  method BuildModelsQuery(category: Option<string>, provider: Option<string>, limit: Option<int>, offset: Option<int>)
    returns (sql: seq<Fragment>, params: seq<Param>)
    ensures sql == ModelsSql(category, provider)
    ensures params == FilterParams(category, provider) + [PNum(limit), PNum(offset)]
    ensures Placeholders(sql) == |params|
  {
    sql := SelectModels;
    params := [];
    if Present(category) {
      sql := sql + CategoryClause;
      params := params + [PStr(category.value)];
    }
    if Present(provider) {
      sql := sql + ProviderClause;
      params := params + [PStr(provider.value)];
    }
    sql := sql + OrderClause;
    sql := sql + PageClause;
    params := params + [PNum(limit), PNum(offset)];
    assert sql == SelectModels + FilterClauses(category, provider) + OrderClause + PageClause;
    ModelsPlaceholders(category, provider);
  }

  /** The page query has one placeholder per parameter: the filters' and the
      two of the page window. */
  lemma ModelsPlaceholders(category: Option<string>, provider: Option<string>)
    ensures Placeholders(ModelsSql(category, provider)) == |FilterParams(category, provider)| + 2
  {
    assert Placeholders(PageClause) == 2 by {
      PlaceholdersOfClause(" LIMIT ");
      PlaceholdersOfClause(" OFFSET ");
      assert PageClause == [Lit(" LIMIT "), Mark] + [Lit(" OFFSET "), Mark];
      PlaceholdersAppend([Lit(" LIMIT "), Mark], [Lit(" OFFSET "), Mark]);
    }
    PlaceholdersOfLit(SelectModels[0].text);
    PlaceholdersOfLit(OrderClause[0].text);
    FilterPlaceholders(category, provider);
    var f := FilterClauses(category, provider);
    PlaceholdersAppend(SelectModels, f);
    PlaceholdersAppend(SelectModels + f, OrderClause);
    PlaceholdersAppend(SelectModels + f + OrderClause, PageClause);
  }

  /** `params.slice(0, -2)`: the count query's parameters are the page
      query's without the page window, and they match its placeholders. */
  lemma CountParamsMatch(category: Option<string>, provider: Option<string>, limit: Option<int>, offset: Option<int>)
    ensures var params := FilterParams(category, provider) + [PNum(limit), PNum(offset)];
      && params[..|params| - 2] == FilterParams(category, provider)
      && Placeholders(CountSql(category, provider)) == |params[..|params| - 2]|
  {
    var params := FilterParams(category, provider) + [PNum(limit), PNum(offset)];
    assert params[..|params| - 2] == FilterParams(category, provider);
    FilterPlaceholders(category, provider);
    PlaceholdersOfLit(CountModels[0].text);
    PlaceholdersAppend(CountModels, FilterClauses(category, provider));
  }

  /** `offset + limit < total`; any comparison with `NaN` is false. */
  function HasMore(limit: Option<int>, offset: Option<int>, total: int): (b: bool)
    ensures limit.None? || offset.None? ==> !b
    ensures limit.Some? && offset.Some? ==> (b <==> offset.value + limit.value < total)
  {
    limit.Some? && offset.Some? && offset.value + limit.value < total
  }

  /** A number as `JSON.stringify` writes it: `NaN` becomes `null`. */
  function NumOrNull(x: Option<int>): (j: Json)
    ensures x.Some? ==> j == JNum(x.value as real)
    ensures x.None? ==> j == JNull
  {
    if x.Some? then JNum(x.value as real) else JNull
  }

  /** The response. `rows` are the page's rows and `total` the count, `None`
      when the database failed. */
  function Respond(q: Query, rows: seq<Json>, total: Option<int>): (r: Response)
    ensures total.None? ==> r == Response(500, JObj(map["error" := JStr("Internal server error")]))
    ensures total.Some? ==>
      && r.status == 200
      && r.body == JObj(map[
           "models" := JArr(rows),
           "pagination" := JObj(map[
             "limit" := NumOrNull(Limit(q)),
             "offset" := NumOrNull(Offset(q)),
             "total" := JNum(total.value as real),
             "hasMore" := JBool(HasMore(Limit(q), Offset(q), total.value))])])
  {
    if total.None? then Response(500, JObj(map["error" := JStr("Internal server error")]))
    else
      Response(200, JObj(map[
        "models" := JArr(rows),
        "pagination" := JObj(map[
          "limit" := NumOrNull(Limit(q)),
          "offset" := NumOrNull(Offset(q)),
          "total" := JNum(total.value as real),
          "hasMore" := JBool(HasMore(Limit(q), Offset(q), total.value))])]))
  }

  /** With no parameters the window is the first 50 rows. */
  lemma DefaultWindow(q: Query, total: int)
    requires "limit" !in q && "offset" !in q
    ensures Limit(q) == Some(50) && Offset(q) == Some(0)
    ensures HasMore(Limit(q), Offset(q), total) <==> 50 < total
  {
  }

  /** A numeric `limit` above 100 is cut to 100. */
  lemma LimitCapped(q: Query, n: nat)
    requires "limit" in q && q["limit"] == ShowNat(n) && n > 100
    ensures Limit(q) == Some(100)
  {
    ParseShowNat(n);
  }

  /** A non-numeric `limit` is `NaN`: it is echoed as `null` and there is never a next page. */
  lemma NaNLimitNoMore(q: Query, total: int)
    requires "limit" in q && q["limit"] == "all"
    ensures NumOrNull(Limit(q)) == JNull && !HasMore(Limit(q), Offset(q), total)
  {
    ParseNaN();
  }
}
