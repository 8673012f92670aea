/**
 * The query-string middleware shared by both routers: it turns the raw
 * `where`, `sort`, `select`, `skip`, `limit` and `count` parameters into a
 * query descriptor, or answers 400 when a structured parameter is not
 * valid JSON. `JSON.parse` is a parameter (a partial function, None where
 * it throws); `parseInt(s, 10)` is modelled below.
 */
module ParseJsonQuery {
  import opened Wrappers
  import opened Http

  const InvalidJson := Reply(400, "Invalid JSON in query parameters")

  /**
   * The descriptor the middleware stores in `req.parsedQuery`. A field is
   * Some exactly when the middleware set its key (for `limit`, when it set
   * it to a number rather than to `undefined`); documents of type `D` are
   * whatever `JSON.parse` returned.
   */
  datatype Query<D> = Query(
    where: Option<D>,
    sort: Option<D>,
    select: Option<D>,
    skip: Option<int>,
    limit: Option<int>,
    count: Option<bool>)

  // parseInt(s, 10)

  predicate IsDigit(c: char) {
    '0' <= c <= '9'
  }

  /** The white space and line terminators `parseInt` skips before the number. */
  predicate IsSpace(c: char) {
    || c == '\t' || c == '\n' || c == '\U{000B}' || c == '\U{000C}' || c == '\r' || c == ' '
    || c == '\U{00A0}' || c == '\U{1680}' || ('\U{2000}' <= c <= '\U{200A}')
    || c == '\U{2028}' || c == '\U{2029}' || c == '\U{202F}' || c == '\U{205F}'
    || c == '\U{3000}' || c == '\U{FEFF}'
  }

  /** `s` without its leading white space. */
  function TrimStart(s: string): (r: string)
    ensures |r| <= |s| && r == s[|s| - |r|..]
    ensures r == [] || !IsSpace(r[0])
    ensures s == [] || !IsSpace(s[0]) ==> r == s
    ensures forall i :: 0 <= i < |s| - |r| ==> IsSpace(s[i])
  {
    if s != [] && IsSpace(s[0]) then TrimStart(s[1..]) else s
  }

  /** The longest prefix of `s` made of decimal digits. */
  function DigitPrefix(s: string): (ds: string)
    ensures |ds| <= |s| && ds == s[..|ds|]
    ensures forall i :: 0 <= i < |ds| ==> IsDigit(ds[i])
    ensures |ds| < |s| ==> !IsDigit(s[|ds|])
  {
    if s != [] && IsDigit(s[0]) then [s[0]] + DigitPrefix(s[1..]) else []
  }

  /** The value of a string of decimal digits, most significant first. */
  function DigitsValue(ds: string): nat
    requires forall i :: 0 <= i < |ds| ==> IsDigit(ds[i])
  {
    if ds == [] then 0
    else
      assert IsDigit(ds[|ds| - 1]);
      DigitsValue(ds[..|ds| - 1]) * 10 + (ds[|ds| - 1] as int - '0' as int)
  }

  /**
   * `parseInt(s, 10)`: skip leading white space, read an optional sign and
   * the longest run of decimal digits; None (NaN) when there is no digit.
   */
  function ParseInt(s: string): (r: Option<int>)
    ensures var t := TrimStart(s);
            r.Some? <==> (t != [] && IsDigit(t[0])) || (|t| >= 2 && (t[0] == '-' || t[0] == '+') && IsDigit(t[1]))
    ensures r.Some? ==> exists i :: 0 <= i < |s| && IsDigit(s[i])
    ensures s != [] && !IsSpace(s[0]) ==> r == ParseSigned(s)
  {
    ParseSigned(TrimStart(s))
  }

  /** An optional sign and the digits after it, the white space already skipped. */
  function ParseSigned(t: string): (r: Option<int>)
    ensures r.Some? <==> (t != [] && IsDigit(t[0])) || (|t| >= 2 && (t[0] == '-' || t[0] == '+') && IsDigit(t[1]))
    ensures r.Some? && r.value < 0 ==> t != [] && t[0] == '-'
  {
    if t != [] && t[0] == '-' then
      match ReadDigits(t[1..])
      case Some(m) => Some(-m)
      case None => None
    else if t != [] && t[0] == '+' then ReadDigits(t[1..])
    else ReadDigits(t)
  }

  /** The value of the digit run at the start of `u`; None when `u` does not start with a digit. */
  function ReadDigits(u: string): (r: Option<int>)
    ensures r.Some? <==> u != [] && IsDigit(u[0])
    ensures r.Some? ==> r.value >= 0
  {
    var ds := DigitPrefix(u);
    if ds == [] then None else Some(DigitsValue(ds))
  }

  /** The decimal digits of `n`, without leading zeros. */
  function Decimal(n: nat): (s: string)
    ensures s != [] && forall i :: 0 <= i < |s| ==> IsDigit(s[i])
  {
    var d := ['0' + (n % 10) as char];
    if n < 10 then d else Decimal(n / 10) + d
  }

  /** The decimal text of an integer, with a minus sign when negative. */
  function DecimalInt(n: int): string {
    if n < 0 then "-" + Decimal(-n) else Decimal(n)
  }

  /** Reading the digits back gives the number. */
  lemma {:induction false} DigitsValueOfDecimal(n: nat)
    ensures DigitsValue(Decimal(n)) == n
  {
    var s := Decimal(n);
    if n >= 10 {
      DigitsValueOfDecimal(n / 10);
      assert s[..|s| - 1] == Decimal(n / 10);
    }
  }

  /** A run of digits followed by a non-digit is exactly the digit prefix. */
  lemma {:induction false} DigitPrefixOfDigits(ds: string, rest: string)
    requires forall i :: 0 <= i < |ds| ==> IsDigit(ds[i])
    requires rest == [] || !IsDigit(rest[0])
    ensures DigitPrefix(ds + rest) == ds
  {
    if ds != [] {
      assert (ds + rest)[1..] == ds[1..] + rest;
      DigitPrefixOfDigits(ds[1..], rest);
    } else {
      assert ds + rest == rest;
    }
  }

  /** Without leading white space, `parseInt` goes straight to the sign and digits. */
  lemma ParseIntWithoutSpace(t: string)
    requires t != [] && !IsSpace(t[0])
    ensures ParseInt(t) == ParseSigned(t)
  {
    assert TrimStart(t) == t;
  }

  /** A digit run followed by a non-digit reads as its value. */
  lemma ReadDigitRun(ds: string, rest: string)
    requires ds != [] && forall i :: 0 <= i < |ds| ==> IsDigit(ds[i])
    requires rest == [] || !IsDigit(rest[0])
    ensures ReadDigits(ds + rest) == Some(DigitsValue(ds) as int)
  {
    DigitPrefixOfDigits(ds, rest);
  }

  /** A text that starts with a digit is read as its digit run. */
  lemma ParseIntOfDigitStart(t: string)
    requires t != [] && IsDigit(t[0])
    ensures ParseInt(t) == ReadDigits(t)
  {
    ParseIntWithoutSpace(t);
  }

  /** `parseInt` of a digit run followed by a non-digit. */
  lemma ParseIntOfRun(text: string, ds: string, rest: string)
    requires text == ds + rest
    requires ds != [] && forall i :: 0 <= i < |ds| ==> IsDigit(ds[i])
    requires rest == [] || !IsDigit(rest[0])
    ensures ParseInt(text) == Some(DigitsValue(ds) as int)
  {
    assert text[0] == ds[0];
    ParseIntOfDigitStart(text);
    ReadDigitRun(ds, rest);
  }

  /** A minus sign negates the digit run after it. */
  lemma ParseIntOfMinus(t: string, v: int)
    requires t != [] && t[0] == '-' && ReadDigits(t[1..]) == Some(v)
    ensures ParseInt(t) == Some(-v)
  {
    ParseIntWithoutSpace(t);
  }

  /** What follows a leading minus sign. */
  lemma SignAhead(ds: string, rest: string)
    ensures var t := "-" + ds + rest; t != [] && t[0] == '-' && t[1..] == ds + rest
  {
    assert "-" + ds + rest == ['-'] + (ds + rest);
  }

  /** `parseInt` of a minus sign, a digit run and a non-digit. */
  lemma ParseIntOfNegatedRun(text: string, ds: string, rest: string, m: nat)
    requires text == "-" + ds + rest
    requires ds != [] && forall i :: 0 <= i < |ds| ==> IsDigit(ds[i])
    requires rest == [] || !IsDigit(rest[0])
    requires DigitsValue(ds) == m
    ensures ParseInt(text) == Some(-(m as int))
  {
    SignAhead(ds, rest);
    ReadDigitRun(ds, rest);
    ParseIntOfMinus(text, m);
  }

  /**
   * `parseInt` reads back the decimal text of any integer, whatever follows
   * it as long as that does not start with a digit.
   */
  lemma ParseIntOfDecimal(n: int, rest: string)
    requires rest == [] || !IsDigit(rest[0])
    ensures ParseInt(DecimalInt(n) + rest) == Some(n)
  {
    if n < 0 {
      ParseIntOfNegativeDecimal(n, rest);
    } else {
      ParseIntOfNaturalDecimal(n, rest);
    }
  }

  lemma ParseIntOfNaturalDecimal(n: int, rest: string)
    requires n >= 0
    requires rest == [] || !IsDigit(rest[0])
    ensures ParseInt(DecimalInt(n) + rest) == Some(n)
  {
    DigitsValueOfDecimal(n);
    ParseIntOfRun(DecimalInt(n) + rest, Decimal(n), rest);
  }

  lemma ParseIntOfNegativeDecimal(n: int, rest: string)
    requires n < 0
    requires rest == [] || !IsDigit(rest[0])
    ensures ParseInt(DecimalInt(n) + rest) == Some(n)
  {
    var m: nat := -n;
    var ds := Decimal(m);
    DigitsValueOfDecimal(m);
    ParseIntOfNegatedRun(DecimalInt(n) + rest, ds, rest, m);
  }

  // The middleware

  /** `if (req.query[key])`: the parameter is present and not empty. */
  predicate Present(params: map<string, string>, key: string) {
    key in params && params[key] != ""
  }

  /** A present structured parameter that `JSON.parse` rejects. */
  predicate Malformed<D>(params: map<string, string>, key: string, parseJson: string -> Option<D>) {
    Present(params, key) && parseJson(params[key]).None?
  }

  /** One structured parameter: None when it is malformed, Some(None) when it is absent. */
  function ParseDocument<D>(params: map<string, string>, key: string, parseJson: string -> Option<D>): Option<Option<D>> {
    if !Present(params, key) then Some(None)
    else if parseJson(params[key]).None? then None
    else Some(parseJson(params[key]))
  }

  /**
   * The middleware. Any malformed `where`, `sort` or `select` fails the whole
   * request with 400 and no descriptor; otherwise each descriptor field is
   * set exactly when its parameter was given: the three documents as
   * parsed, `skip` as its integer prefix or 0, `limit` as its integer
   * prefix or nothing, and `count` as whether the text is "true".
   */
  function Parse<D>(params: map<string, string>, parseJson: string -> Option<D>): (r: Result<Query<D>, Reply>)
    ensures r.Failure? <==> Malformed(params, "where", parseJson) || Malformed(params, "sort", parseJson)
                            || Malformed(params, "select", parseJson)
    ensures r.Failure? ==> r.error == InvalidJson
    ensures r.Success? ==>
      && r.value.where == (if Present(params, "where") then parseJson(params["where"]) else None)
      && r.value.sort == (if Present(params, "sort") then parseJson(params["sort"]) else None)
      && r.value.select == (if Present(params, "select") then parseJson(params["select"]) else None)
    ensures r.Success? ==>
      && (r.value.skip.Some? <==> "skip" in params)
      && ("skip" in params ==> r.value.skip.value == ParseInt(params["skip"]).GetOr(0))
      && r.value.limit == (if "limit" in params then ParseInt(params["limit"]) else None)
      && r.value.count == (if "count" in params then Some(params["count"] == "true") else None)
  {
    var where := ParseDocument(params, "where", parseJson);
    var sort := ParseDocument(params, "sort", parseJson);
    var select := ParseDocument(params, "select", parseJson);
    if where.None? || sort.None? || select.None? then Failure(InvalidJson)
    else
      var skip := if "skip" in params then Some(ParseInt(params["skip"]).GetOr(0)) else None;
      var limit := if "limit" in params then ParseInt(params["limit"]) else None;
      var count := if "count" in params then Some(params["count"] == "true") else None;
      Success(Query(where.value, sort.value, select.value, skip, limit, count))
  }

  /**
   * `skip`, `limit` and `count` never make the request fail: whether it
   * fails depends on the structured parameters alone.
   */
  lemma NumericParametersNeverFail<D>(params: map<string, string>, parseJson: string -> Option<D>)
    ensures Parse(params, parseJson).Failure? == Parse(params - {"skip", "limit", "count"}, parseJson).Failure?
  {
    var rest := params - {"skip", "limit", "count"};
    assert forall k :: k in {"where", "sort", "select"} ==> (k in params <==> k in rest);
  }

  /** A numeric `skip` or `limit` text is read back as the number it writes. */
  lemma NumericParameterRoundTrip<D>(params: map<string, string>, parseJson: string -> Option<D>, key: string, n: int)
    requires key == "skip" || key == "limit"
    requires key in params && params[key] == DecimalInt(n)
    requires Parse(params, parseJson).Success?
    ensures key == "skip" ==> Parse(params, parseJson).value.skip == Some(n)
    ensures key == "limit" ==> Parse(params, parseJson).value.limit == Some(n)
  {
    ParseIntOfDecimal(n, "");
    assert DecimalInt(n) + "" == DecimalInt(n);
  }

  /**
   * A `skip` without digits becomes 0 and a `limit` without digits becomes
   * no limit at all, so the caller's default applies.
   */
  lemma NonNumericFallbacks<D>(params: map<string, string>, parseJson: string -> Option<D>)
    requires Parse(params, parseJson).Success?
    ensures "skip" in params && (forall i :: 0 <= i < |params["skip"]| ==> !IsDigit(params["skip"][i]))
      ==> Parse(params, parseJson).value.skip == Some(0)
    ensures "limit" in params && (forall i :: 0 <= i < |params["limit"]| ==> !IsDigit(params["limit"][i]))
      ==> Parse(params, parseJson).value.limit.None?
  {
  }
}
