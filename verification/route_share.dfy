/**
 * Sharing a route by URL: the share link carries the stop ids in its
 * `route` query parameter, and the parser reads them back with strict
 * validation. A short link carries a 32-bit string hash of the ids in
 * base 36.
 *
 * The page origin is a parameter; the query is read from the `search` part
 * of the location (`?` and what follows).
 */
module RouteShare {
  import opened Wrappers
  import opened Text
  import opened JsNumber
  import opened Types

  function StopIds(route: seq<RouteStop>): (r: seq<int>)
    ensures |r| == |route|
    ensures forall k :: 0 <= k < |route| ==> r[k] == route[k].falla.id
  {
    seq(|route|, k requires 0 <= k < |route| => route[k].falla.id)
  }

  /** Each id as `${id}` renders it, in order. */
  function Texts(ids: seq<int>): (r: seq<string>)
    ensures |r| == |ids|
  {
    if |ids| == 0 then [] else [IntToString(ids[0])] + Texts(ids[1..])
  }

  lemma {:induction false} TextsAt(ids: seq<int>, k: int)
    requires 0 <= k < |ids|
    ensures Texts(ids)[k] == IntToString(ids[k])
    decreases |ids|
  {
    if k > 0 {
      TextsAt(ids[1..], k - 1);
    }
  }

  /** The id of every stop, in route order, as text. */
  function IdTexts(route: seq<RouteStop>): seq<string> {
    Texts(StopIds(route))
  }

  /** The value of the `route` parameter: the ids joined by commas. */
  function ShareParam(route: seq<RouteStop>): string {
    Join(IdTexts(route), ",")
  }

  /** The query part of the share link of a non-empty route. */
  function ShareSearch(route: seq<RouteStop>): string {
    "?route=" + ShareParam(route) + "&optimized=true"
  }

  /** generateShareURL: the bare origin for an empty route. */
  function GenerateShareURL(origin: string, route: seq<RouteStop>): (r: string)
    ensures |route| == 0 ==> r == origin
    ensures |route| > 0 ==> r == origin + ShareSearch(route)
  {
    if |route| == 0 then origin else origin + "?route=" + ShareParam(route) + "&optimized=true"
  }

  // ---------------------------------------------------------------------
  // Reading the query: URLSearchParams.get, without percent-decoding

  datatype Param = Param(name: string, value: string)

  /** A `name=value` field: the name ends at the first `=`; no `=` means an empty value. */
  function ParamOf(field: string): (r: Param)
    ensures '=' !in field ==> r == Param(field, "")
    decreases |field|
  {
    if |field| == 0 then Param("", "")
    else if field[0] == '=' then Param("", field[1..])
    else
      var rest := ParamOf(field[1..]);
      Param([field[0]] + rest.name, rest.value)
  }

  lemma {:induction false} ParamOfAssignment(name: string, value: string)
    requires '=' !in name
    ensures ParamOf(name + "=" + value) == Param(name, value)
    decreases |name|
  {
    if |name| == 0 {
      assert name + "=" + value == "=" + value;
    } else {
      assert (name + "=" + value)[1..] == name[1..] + "=" + value;
      ParamOfAssignment(name[1..], value);
      assert [name[0]] + name[1..] == name;
    }
  }

  /** The value of the first non-empty field with that name. */
  function FirstValue(fields: seq<string>, name: string): (r: Option<string>)
    ensures r.Some? ==> exists k :: 0 <= k < |fields| && IsField(fields[k], name)
                                  && ParamOf(fields[k]).value == r.value
                                  && forall j :: 0 <= j < k ==> !IsField(fields[j], name)
    ensures r.None? ==> forall k :: 0 <= k < |fields| ==> !IsField(fields[k], name)
    decreases |fields|
  {
    if |fields| == 0 then None
    else if IsField(fields[0], name) then Some(ParamOf(fields[0]).value)
    else
      var r := FirstValue(fields[1..], name);
      assert forall k :: 1 <= k < |fields| ==> fields[k] == fields[1..][k - 1];
      if r.Some? then
        var k :| 0 <= k < |fields[1..]| && IsField(fields[1..][k], name)
                 && ParamOf(fields[1..][k]).value == r.value
                 && forall j :: 0 <= j < k ==> !IsField(fields[1..][j], name);
        FirstAfterSkip(fields, name, k);
        r
      else
        r
  }

  /** A first match in the tail, after a head that does not match, is a first match of the whole. */
  lemma {:induction false} FirstAfterSkip(fields: seq<string>, name: string, k: nat)
    requires k + 1 < |fields| && !IsField(fields[0], name)
    requires forall j :: 0 <= j < k ==> !IsField(fields[1..][j], name)
    ensures forall j :: 0 <= j < k + 1 ==> !IsField(fields[j], name)
    ensures fields[k + 1] == fields[1..][k]
  {
    forall j | 0 <= j < k + 1
      ensures !IsField(fields[j], name)
    {
      if j > 0 {
        assert fields[j] == fields[1..][j - 1];
      }
    }
  }

  /** A non-empty query field carrying that name. */
  predicate IsField(field: string, name: string) {
    field != "" && ParamOf(field).name == name
  }

  /** The text URLSearchParams reads: the search string without its leading `?`. */
  function QueryText(search: string): string {
    if StartsWith(search, "?") then search[1..] else search
  }

  /** The `&`-separated fields of the query. */
  function Fields(search: string): seq<string> {
    Split(QueryText(search), '&')
  }

  /**
   * `new URLSearchParams(search).get(name)`: the fields are split on `&`;
   * a value comes from a non-empty field with that name, and there is none
   * exactly when no non-empty field has that name.
   */
  function GetParam(search: string, name: string): (r: Option<string>)
    ensures r.Some? ==> exists k :: 0 <= k < |Fields(search)| && IsField(Fields(search)[k], name)
                                    && ParamOf(Fields(search)[k]).value == r.value
                                    && forall j :: 0 <= j < k ==> !IsField(Fields(search)[j], name)
    ensures r.None? ==> forall k :: 0 <= k < |Fields(search)| ==> !IsField(Fields(search)[k], name)
  {
    FirstValue(Fields(search), name)
  }

  // ---------------------------------------------------------------------
  // parseRouteFromURL

  /** The test `/^[\d,]+$/`: non-empty, only ASCII digits and commas. */
  predicate DigitsAndCommas(p: string) {
    |p| > 0 && forall k :: 0 <= k < |p| ==> IsDigit(p[k]) || p[k] == ','
  }

  const MaxParamLength: int := 500
  const MaxStops: int := 50
  const MaxId: int := 10000

  /** `parseInt(field.trim(), 10)` kept only when it is a number in 1..10000. */
  function FieldId(field: string): (r: Option<int>)
    ensures r.Some? ==> 1 <= r.value <= MaxId
  {
    var v := ParseInt(Trim(field));
    if v.Some? && 0 < v.value <= MaxId then v else None
  }

  /**
   * A field of digits only is read whole: the empty field is NaN and is
   * dropped, and so is a value outside 1..10000.
   */
  lemma {:induction false} FieldIdOfDigits(field: string)
    requires AllDigits(field)
    ensures FieldId(field) == if field != "" && 1 <= DigitsValue(field) <= MaxId then Some(DigitsValue(field)) else None
  {
    TrimIdentity(field);
    ParseIntOfDigits(field);
  }

  /** The map-then-filter over the fields. */
  function CollectIds(fields: seq<string>): (r: seq<int>)
    ensures |r| <= |fields|
    ensures forall k :: 0 <= k < |r| ==> 1 <= r[k] <= MaxId
    decreases |fields|
  {
    if |fields| == 0 then []
    else
      Present(FieldId(fields[0])) + CollectIds(fields[1..])
  }

  /** The id a field yields, as a list of zero or one elements. */
  function Present(v: Option<int>): (r: seq<int>)
    ensures |r| <= 1
    ensures v.Some? ==> r == [v.value]
    ensures v.None? ==> r == []
  {
    match v
    case Some(x) => [x]
    case None => []
  }

  /** `.slice(0, 50)` */
  function FirstFields(fields: seq<string>): (r: seq<string>)
    ensures |r| <= MaxStops
    ensures |fields| <= MaxStops ==> r == fields
    ensures |fields| > MaxStops ==> r == fields[..MaxStops]
  {
    if |fields| <= MaxStops then fields else fields[..MaxStops]
  }

  /** The validation and parsing of the `route` parameter's value. */
  function ParseRoute(param: Option<string>): (r: Option<seq<int>>)
    ensures param.None? || param == Some("") ==> r.None?
    ensures param.Some? && !DigitsAndCommas(param.value) ==> r.None?
    ensures param.Some? && |param.value| > MaxParamLength ==> r.None?
    ensures r.Some? ==> 1 <= |r.value| <= MaxStops
    ensures r.Some? ==> forall k :: 0 <= k < |r.value| ==> 1 <= r.value[k] <= MaxId
  {
    if param.None? || param.value == "" then None
    else if !DigitsAndCommas(param.value) || |param.value| > MaxParamLength then None
    else
      var ids := CollectIds(FirstFields(Split(param.value, ',')));
      if |ids| > 0 then Some(ids) else None
  }

  /** parseRouteFromURL over the location's query part. */
  function ParseRouteFromURL(search: string): (r: Option<seq<int>>)
    ensures GetParam(search, "route").None? ==> r.None?
    ensures r.Some? ==> 1 <= |r.value| <= MaxStops
    ensures r.Some? ==> forall k :: 0 <= k < |r.value| ==> 1 <= r.value[k] <= MaxId
  {
    ParseRoute(GetParam(search, "route"))
  }

  // ---------------------------------------------------------------------
  // The round trip

  /** A route the parser accepts back: 1 to 50 stops, every id in 1..10000. */
  predicate Shareable(route: seq<RouteStop>) {
    1 <= |route| <= MaxStops && forall k :: 0 <= k < |route| ==> 1 <= route[k].falla.id <= MaxId
  }

  function Pow10(k: nat): (p: nat)
    ensures p >= 1
  {
    if k == 0 then 1 else 10 * Pow10(k - 1)
  }

  lemma {:induction false} NatToStringLength(n: nat, k: nat)
    requires k >= 1 && n < Pow10(k)
    ensures |NatToString(n)| <= k
    decreases k
  {
    if n >= 10 {
      assert n / 10 < Pow10(k - 1);
      NatToStringLength(n / 10, k - 1);
    }
  }

  /** Joining digit strings with commas gives digits and commas, at most six characters per part. */
  lemma {:induction false} JoinDigits(parts: seq<string>)
    requires |parts| >= 1
    requires forall k :: 0 <= k < |parts| ==> |parts[k]| >= 1 && |parts[k]| <= 5 && AllDigits(parts[k])
    ensures DigitsAndCommas(Join(parts, ","))
    ensures |Join(parts, ",")| <= 6 * |parts| - 1
    decreases |parts|
  {
    if |parts| > 1 {
      JoinDigits(parts[1..]);
      var j := Join(parts, ",");
      var t := Join(parts[1..], ",");
      assert j == parts[0] + "," + t;
      forall k | 0 <= k < |j|
        ensures IsDigit(j[k]) || j[k] == ','
      {
        if k > |parts[0]| {
          assert j[k] == t[k - |parts[0]| - 1];
        }
      }
    }
  }

  /** The decimal form of an id in range is read back as that id. */
  lemma {:induction false} FieldIdOfId(id: int)
    requires 1 <= id <= MaxId
    ensures FieldId(IntToString(id)) == Some(id)
  {
    DigitsValueOfNatToString(id);
    FieldIdOfDigits(NatToString(id));
  }

  /** The first id's text yields that id, ahead of what the others yield. */
  lemma {:induction false} CollectIdsTextsStep(ids: seq<int>)
    requires |ids| > 0 && 1 <= ids[0] <= MaxId
    ensures CollectIds(Texts(ids)) == [ids[0]] + CollectIds(Texts(ids[1..]))
  {
    var head := IntToString(ids[0]);
    assert CollectIds(Texts(ids)) == CollectIds([head]) + CollectIds(Texts(ids[1..])) by {
      assert Texts(ids) == [head] + Texts(ids[1..]);
      CollectIdsConcat([head], Texts(ids[1..]));
    }
    assert CollectIds([head]) == [ids[0]] by {
      FieldIdOfId(ids[0]);
      assert [head][1..] == [];
    }
  }

  /** Reading the decimal forms of ids in range gives the ids back. */
  lemma {:induction false} CollectIdsOfTexts(ids: seq<int>)
    requires forall k :: 0 <= k < |ids| ==> 1 <= ids[k] <= MaxId
    ensures CollectIds(Texts(ids)) == ids
    decreases |ids|
  {
    if |ids| > 0 {
      CollectIdsTextsStep(ids);
      CollectIdsOfTexts(ids[1..]);
      assert ids == [ids[0]] + ids[1..];
    }
  }

  /** The value of the `route` parameter parses back to the ids, in order. */
  lemma {:induction false} ShareParamRoundTrip(route: seq<RouteStop>)
    requires Shareable(route)
    ensures DigitsAndCommas(ShareParam(route)) && |ShareParam(route)| <= 6 * MaxStops - 1
    ensures ParseRoute(Some(ShareParam(route))) == Some(StopIds(route))
  {
    var ids := StopIds(route);
    var texts := IdTexts(route);
    var p := ShareParam(route);
    forall k | 0 <= k < |texts|
      ensures |texts[k]| >= 1 && |texts[k]| <= 5 && AllDigits(texts[k]) && ',' !in texts[k]
    {
      TextsAt(ids, k);
      assert ids[k] < Pow10(5);
      NatToStringLength(ids[k], 5);
    }
    JoinDigits(texts);
    assert Split(p, ',') == texts by {
      SplitJoin(texts, ',');
    }
    assert CollectIds(FirstFields(Split(p, ','))) == ids by {
      CollectIdsOfTexts(ids);
    }
  }

  /**
   * The round trip: the link of a shareable route is the origin followed by
   * a query from which parseRouteFromURL reads back exactly the route's
   * ids, in order.
   */
  lemma {:induction false} ShareRoundTrip(origin: string, route: seq<RouteStop>)
    requires Shareable(route)
    ensures GenerateShareURL(origin, route) == origin + ShareSearch(route)
    ensures ParseRouteFromURL(ShareSearch(route)) == Some(StopIds(route))
  {
    ShareParamRoundTrip(route);
    RouteParamOfSearch(ShareParam(route));
  }

  /** The query of a share link yields its `route` value unchanged. */
  lemma {:induction false} RouteParamOfSearch(p: string)
    requires DigitsAndCommas(p)
    ensures GetParam("?route=" + p + "&optimized=true", "route") == Some(p)
  {
    ShareSearchShape(p);
    QueryFields(p);
    RouteFieldParam(p);
    GetParamFirst("?route=" + p + "&optimized=true", "route=" + p, ["optimized=true"], "route", p);
  }

  /** A share query is `?` followed by its two fields joined by `&`. */
  lemma {:induction false} ShareSearchShape(p: string)
    ensures var search := "?route=" + p + "&optimized=true";
            |search| > 0 && search[0] == '?' && search[1..] == "route=" + p + "&" + "optimized=true"
  {
    var search := "?route=" + p + "&optimized=true";
    assert search == "?" + ("route=" + p + "&" + "optimized=true");
  }

  /** The first field of a share query assigns the stop list to `route`. */
  lemma {:induction false} RouteFieldParam(p: string)
    ensures "route=" + p != "" && ParamOf("route=" + p) == Param("route", p)
  {
    assert "route=" + p == "route" + "=" + p;
    ParamOfAssignment("route", p);
  }

  /** A query whose first field assigns the name yields that field's value. */
  lemma {:induction false} GetParamFirst(search: string, first: string, rest: seq<string>, name: string, value: string)
    requires |search| > 0 && search[0] == '?'
    requires Split(search[1..], '&') == [first] + rest
    requires first != "" && ParamOf(first) == Param(name, value)
    ensures GetParam(search, name) == Some(value)
  {
    assert StartsWith(search, "?") by {
      assert search[..1] == "?";
    }
  }

  /** The two fields of a share link's query. */
  lemma {:induction false} QueryFields(p: string)
    requires DigitsAndCommas(p)
    ensures Split("route=" + p + "&" + "optimized=true", '&') == ["route=" + p, "optimized=true"]
  {
    var first := "route=" + p;
    assert '&' !in first by {
      forall k | 0 <= k < |first|
        ensures first[k] != '&'
      {
        if k >= 6 {
          assert first[k] == p[k - 6];
        }
      }
    }
    assert Join([first, "optimized=true"], "&") == first + "&" + "optimized=true";
    SplitJoin([first, "optimized=true"], '&');
  }

  /**
   * Each field contributes on its own and in place: a run of fields yields
   * the ids of its parts, concatenated in order.
   */
  lemma {:induction false} CollectIdsConcat(a: seq<string>, b: seq<string>)
    ensures CollectIds(a + b) == CollectIds(a) + CollectIds(b)
    decreases |a|
  {
    if |a| == 0 {
      assert a + b == b;
    } else {
      assert (a + b)[0] == a[0];
      assert (a + b)[1..] == a[1..] + b;
      CollectIdsConcat(a[1..], b);
    }
  }

  /** A field of digits yields its value when that is in 1..10000, and nothing otherwise. */
  lemma {:induction false} CollectIdsOfField(field: string)
    requires AllDigits(field)
    ensures CollectIds([field]) == if field != "" && 1 <= DigitsValue(field) <= MaxId then [DigitsValue(field)] else []
  {
    FieldIdOfDigits(field);
    assert [field][1..] == [];
  }

  /** A character other than a digit or a comma rejects the whole parameter. */
  lemma {:induction false} ParseRejectsOtherCharacters()
    ensures ParseRoute(Some("1;2")) == None
    ensures ParseRoute(Some(" 1")) == None
  {
    assert "1;2"[1] == ';';
    assert " 1"[0] == ' ';
  }

  // ---------------------------------------------------------------------
  // hashRoute and the short link

  /** The hash as the program's recurrence defines it, h := ToInt32(31 h + code unit), from 0. */
  function HashOf(s: string): (h: int)
    ensures IsInt32(h)
    decreases |s|
  {
    if |s| == 0 then 0 else ToInt32(31 * HashOf(s[..|s| - 1]) + s[|s| - 1] as int)
  }

  /** `((hash << 5) - hash) + char` followed by `hash & hash` is the recurrence's step. */
  lemma {:induction false} HashStep(h: int, c: int)
    requires IsInt32(h)
    ensures ToInt32(ShiftLeft5(h) - h + c) == ToInt32(31 * h + c)
  {
    var s := ToInt32(h * 32);
    assert ShiftLeft5(h) == s;
    var d := h * 32 - s;
    assert d % TwoTo32 == 0;
    var q := d / TwoTo32;
    assert d == q * TwoTo32;
    assert (s - h + c) - (31 * h + c) == -d;
    assert -d == (-q) * TwoTo32;
    ModShift(0, -q);
    ToInt32Congruent(s - h + c, 31 * h + c);
  }

  function Abs(x: int): (r: nat)
    ensures r == x || r == -x
  {
    if x < 0 then -x else x
  }

  /** The text hashRoute hashes: the ids joined by `-`. */
  function HashedText(route: seq<RouteStop>): string {
    Join(IdTexts(route), "-")
  }

  /** `Math.abs(hash).toString(36).substring(0, 8)` */
  function ShortCode(route: seq<RouteStop>): (r: string)
    ensures 1 <= |r| <= 6
  {
    var n := Abs(HashOf(HashedText(route)));
    assert Pow36(6) == 2176782336;
    ToBase36Length(n, 6);
    Take(ToBase36(n), 8)
  }

  /**
   * A 32-bit magnitude has at most six base-36 digits, so the cut at eight
   * characters never shortens the code.
   */
  lemma {:induction false} ShortCodeUncut(route: seq<RouteStop>)
    ensures ShortCode(route) == ToBase36(Abs(HashOf(HashedText(route))))
    ensures 1 <= |ShortCode(route)| <= 6
  {
    var n := Abs(HashOf(HashedText(route)));
    assert Pow36(6) == 2176782336;
    ToBase36Length(n, 6);
  }

  /** The hash of the ids 1 and 2. */
  lemma {:induction false} HashOfExample()
    ensures HashOf("1-2") == 48534
  {
    assert "1-2"[..2] == "1-";
    assert "1-"[..1] == "1";
    assert ""[..0] == "";
    assert "1"[..0] == "";
    assert HashOf("1") == 49;
    assert HashOf("1-") == 1564;
  }

  /** One more code unit extends the hash by one step of the recurrence. */
  lemma {:induction false} HashOfPrefix(s: string, i: int)
    requires 0 <= i < |s|
    ensures HashOf(s[..i + 1]) == ToInt32(31 * HashOf(s[..i]) + s[i] as int)
  {
    assert s[..i + 1][..i] == s[..i];
  }

  /** hashRoute: the for loop over the code units with a 32-bit accumulator. */
  method HashRoute(route: seq<RouteStop>) returns (code: string)
    ensures code == ShortCode(route)
  {
    var ids := HashedText(route);
    var hash := 0;
    for i := 0 to |ids|
      invariant hash == HashOf(ids[..i])
    {
      var ch := ids[i] as int;
      HashOfPrefix(ids, i);
      HashStep(hash, ch);
      hash := ShiftLeft5(hash) - hash + ch;
      hash := ToInt32(hash);  // hash & hash
    }
    assert ids[..|ids|] == ids;
    code := Take(ToBase36(Abs(hash)), 8);
  }

  /** generateShortURL: the origin, `/r/` and the short code. */
  method GenerateShortURL(origin: string, route: seq<RouteStop>) returns (url: string)
    ensures url == origin + "/r/" + ShortCode(route)
    ensures |url| <= |origin| + 9
  {
    var code := HashRoute(route);
    ShortCodeUncut(route);
    url := origin + "/r/" + code;
  }
}
