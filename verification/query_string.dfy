/**
  The query-string tail of the drill-down links: a `&name=` segment and a
  `&description=` segment for the non-empty filters, and the decoder that reads
  a query string back into key/value pairs.
 */
module QueryString {
  import opened Wrappers
  import opened Text

  /** A `key=value` parameter. */
  function Param(k: string, v: string): string {
    k + "=" + v
  }

  /** `&key=value` for a non-empty value, nothing otherwise. */
  function Segment(k: string, v: Option<string>): string {
    if IsEmpty(v) then "" else "&" + Param(k, v.value)
  }

  /** The name and description segments, before any trimming. */
  function Concatenated(name: Option<string>, description: Option<string>): string {
    Segment("name", name) + Segment("description", description)
  }

  /**
    The query-string tail appended to each drill-down link: the name and
    description segments with one trailing `&` removed. The country filter plays
    no part.
   */
  function QueryParams(name: Option<string>, description: Option<string>, country: Option<string>): (r: string)
    ensures var raw := Concatenated(name, description);
      && r <= raw
      && |raw| - 1 <= |r|
      && (|r| < |raw| <==> EndsWith(raw, '&'))
    ensures IsEmpty(name) && IsEmpty(description) ==> r == ""
  {
    var raw := Concatenated(name, description);
    if EndsWith(raw, '&') then raw[..|raw| - 1] else raw
  }

  /**
    The name segment comes first and the description segment after it: the
    result starts with `&name=` for a non-empty name, with `&description=` when
    only the description is set, and with `&name=<name>&description=` when both
    are.
   */
  lemma QueryParamsOrder(name: Option<string>, description: Option<string>, country: Option<string>)
    ensures var r := QueryParams(name, description, country);
      && (!IsEmpty(name) ==> "&name=" <= r)
      && (IsEmpty(name) && !IsEmpty(description) ==> "&description=" <= r)
      && (!IsEmpty(name) && !IsEmpty(description) ==> "&name=" + name.value + "&description=" <= r)
  {
    if !IsEmpty(name) {
      NameFirst(name, description, country);
      if !IsEmpty(description) {
        DescriptionAfterName(name, description, country);
      }
    } else if !IsEmpty(description) {
      DescriptionFirst(name, description, country);
    }
  }

  lemma NameFirst(name: Option<string>, description: Option<string>, country: Option<string>)
    requires !IsEmpty(name)
    ensures "&name=" <= QueryParams(name, description, country)
  {
    SegmentPrefix("name", name.value, Segment("description", description),
                  Concatenated(name, description), QueryParams(name, description, country));
    assert "&" + "name" + "=" == "&name=";
  }

  lemma DescriptionFirst(name: Option<string>, description: Option<string>, country: Option<string>)
    requires IsEmpty(name) && !IsEmpty(description)
    ensures "&description=" <= QueryParams(name, description, country)
  {
    assert Concatenated(name, description) == "&" + Param("description", description.value) + "";
    SegmentPrefix("description", description.value, "",
                  Concatenated(name, description), QueryParams(name, description, country));
    assert "&" + "description" + "=" == "&description=";
  }

  lemma DescriptionAfterName(name: Option<string>, description: Option<string>, country: Option<string>)
    requires !IsEmpty(name) && !IsEmpty(description)
    ensures "&name=" + name.value + "&description=" <= QueryParams(name, description, country)
  {
    var n, d := name.value, description.value;
    var raw := Concatenated(name, description);
    var head := "&" + "name" + "=" + n + ("&" + "description" + "=");
    assert raw == head + d by {
      SegmentSpelling("name", n);
      SegmentSpelling("description", d);
    }
    PrefixOfTrimmed(head, d, raw, QueryParams(name, description, country));
    assert "&" + "name" + "=" == "&name=";
    assert "&" + "description" + "=" == "&description=";
  }

  /** A trimmed string still starts with the `&key=` of its first segment. */
  lemma SegmentPrefix(k: string, v: string, rest: string, raw: string, r: string)
    requires |v| > 0 && raw == "&" + Param(k, v) + rest
    requires r <= raw && |raw| - 1 <= |r|
    ensures "&" + k + "=" <= r
  {
    var head := "&" + k + "=";
    assert raw == head + (v + rest);
    PrefixOfTrimmed(head, v + rest, raw, r);
  }

  lemma SegmentSpelling(k: string, v: string)
    ensures "&" + Param(k, v) == ("&" + k + "=") + v
  {
  }

  /** A prefix of `raw` that stops before its non-empty tail survives losing the last character. */
  lemma PrefixOfTrimmed(head: string, tail: string, raw: string, r: string)
    requires |tail| > 0 && raw == head + tail
    requires r <= raw && |raw| - 1 <= |r|
    ensures head <= r
  {
    assert r[..|head|] == raw[..|head|] == head;
  }

  /** The query string does not depend on the country filter. */
  lemma QueryParamsIgnoresCountry(name: Option<string>, description: Option<string>, c1: Option<string>, c2: Option<string>)
    ensures QueryParams(name, description, c1) == QueryParams(name, description, c2)
  {
  }

  /** The filter value that ends the concatenated segments, if any. */
  function LastValue(name: Option<string>, description: Option<string>): Option<string> {
    if !IsEmpty(description) then description
    else if !IsEmpty(name) then name
    else None
  }

  /**
    Every segment starts with `&`, so the concatenation never ends with a
    separator: the trailing `&` that gets trimmed is always the last character
    of the last non-empty filter value.
   */
  lemma TrimTakesValueCharacter(name: Option<string>, description: Option<string>, country: Option<string>)
    ensures var last := LastValue(name, description);
      (QueryParams(name, description, country) != Concatenated(name, description))
      == (last.Some? && EndsWith(last.value, '&'))
  {
    if !IsEmpty(description) {
      var d := description.value;
      EndsWithAppend("description=", d, '&');
      EndsWithAppend("&", Param("description", d), '&');
      EndsWithAppend(Segment("name", name), "&" + Param("description", d), '&');
    } else if !IsEmpty(name) {
      var n := name.value;
      assert Concatenated(name, description) == "&" + Param("name", n);
      EndsWithAppend("name=", n, '&');
      EndsWithAppend("&", Param("name", n), '&');
    } else {
      assert Concatenated(name, description) == "";
    }
  }

  /** Filter values that survive being put into a query string unescaped. */
  predicate Unescaped(v: Option<string>) {
    v.Some? ==> '&' !in v.value
  }

  /** Without `&` inside the values nothing is trimmed. */
  lemma NoTrimWhenUnescaped(name: Option<string>, description: Option<string>, country: Option<string>)
    requires Unescaped(name) && Unescaped(description)
    ensures QueryParams(name, description, country) == Concatenated(name, description)
  {
    TrimTakesValueCharacter(name, description, country);
    var last := LastValue(name, description);
    assert last.Some? ==> forall j :: 0 <= j < |last.value| ==> last.value[j] != '&';
  }

  /** Each piece cut at its first `=` into a key and a value. */
  function DecodePairs(parts: seq<string>): (ps: seq<(string, string)>)
    ensures |ps| == |parts|
  {
    seq(|parts|, i requires 0 <= i < |parts| => SplitOnce(parts[i], '='))
  }

  /** The key/value pairs of a query string: pieces between `&`, each cut at its first `=`. */
  function DecodeQuery(q: string): seq<(string, string)> {
    DecodePairs(Split(q, '&'))
  }

  /** The value of the first pair with key `k`, if any. */
  function Lookup(ps: seq<(string, string)>, k: string): (v: Option<string>)
    ensures v.Some? ==> exists i :: 0 <= i < |ps| && ps[i] == (k, v.value) && forall j :: 0 <= j < i ==> ps[j].0 != k
    ensures v.None? ==> forall i :: 0 <= i < |ps| ==> ps[i].0 != k
  {
    if |ps| == 0 then None
    else if ps[0].0 == k then Some(ps[0].1)
    else Lookup(ps[1..], k)
  }

  /** The parameters a drill-down link should carry: the bucket's country, then the non-empty filters. */
  function LinkParams(key: string, name: Option<string>, description: Option<string>): seq<(string, string)> {
    [("country", key)]
    + (if IsEmpty(name) then [] else [("name", name.value)])
    + (if IsEmpty(description) then [] else [("description", description.value)])
  }

  /** The pieces of a drill-down link's query string, in the same order. */
  function LinkParts(key: string, name: Option<string>, description: Option<string>): seq<string> {
    [Param("country", key)]
    + (if IsEmpty(name) then [] else [Param("name", name.value)])
    + (if IsEmpty(description) then [] else [Param("description", description.value)])
  }

  /** No piece of a drill-down link's query string contains the separator. */
  lemma LinkPartsUnescaped(key: string, name: Option<string>, description: Option<string>)
    requires '&' !in key && Unescaped(name) && Unescaped(description)
    ensures forall k :: 0 <= k < |LinkParts(key, name, description)| ==> '&' !in LinkParts(key, name, description)[k]
  {
    assert '&' !in "country" && '&' !in "name" && '&' !in "description" && '&' !in "=";
  }

  /** The query string of a drill-down link is its pieces joined with `&`. */
  lemma LinkQueryJoin(key: string, name: Option<string>, description: Option<string>)
    ensures Param("country", key) + Concatenated(name, description) == Join(LinkParts(key, name, description), '&')
  {
    var head := Param("country", key);
    var parts := LinkParts(key, name, description);
    var raw := Concatenated(name, description);
    if !IsEmpty(name) && !IsEmpty(description) {
      var n, d := Param("name", name.value), Param("description", description.value);
      assert parts == [head, n, d];
      assert raw == "&" + n + ("&" + d);
      JoinSegments3(head, n, d);
    } else if !IsEmpty(name) {
      var n := Param("name", name.value);
      assert parts == [head, n];
      assert raw == "&" + n;
      JoinSegments2(head, n);
    } else if !IsEmpty(description) {
      var d := Param("description", description.value);
      assert parts == [head, d];
      assert raw == "&" + d;
      JoinSegments2(head, d);
    } else {
      assert parts == [head];
      assert raw == "";
    }
  }

  lemma JoinSegments2(head: string, p: string)
    ensures head + ("&" + p) == Join([head, p], '&')
  {
    JoinTwo(head, p, '&');
  }

  lemma JoinSegments3(head: string, p: string, q: string)
    ensures head + ("&" + p + ("&" + q)) == Join([head, p, q], '&')
  {
    JoinThree(head, p, q, '&');
  }

  /** A `key=value` piece with a key free of `=` decodes to that key and value. */
  lemma DecodeParam(k: string, v: string)
    requires '=' !in k
    ensures SplitOnce(Param(k, v), '=') == (k, v)
  {
    SplitOnceKey(k, v, '=');
  }

  lemma DecodeTwo(a: string, b: string)
    ensures DecodePairs([a, b]) == [SplitOnce(a, '='), SplitOnce(b, '=')]
  {
  }

  lemma DecodeThree(a: string, b: string, c: string)
    ensures DecodePairs([a, b, c]) == [SplitOnce(a, '='), SplitOnce(b, '='), SplitOnce(c, '=')]
  {
  }

  /** Each piece of a drill-down link's query string decodes to its parameter. */
  lemma DecodeLinkParts(key: string, name: Option<string>, description: Option<string>)
    ensures DecodePairs(LinkParts(key, name, description)) == LinkParams(key, name, description)
  {
    assert '=' !in "country" && '=' !in "name" && '=' !in "description";
    DecodeParam("country", key);
    var parts := LinkParts(key, name, description);
    var expected := LinkParams(key, name, description);
    if !IsEmpty(name) && !IsEmpty(description) {
      var n, d := name.value, description.value;
      DecodeParam("name", n);
      DecodeParam("description", d);
      assert parts == [Param("country", key), Param("name", n), Param("description", d)];
      assert expected == [("country", key), ("name", n), ("description", d)];
      DecodeThree(Param("country", key), Param("name", n), Param("description", d));
    } else if !IsEmpty(name) {
      var n := name.value;
      DecodeParam("name", n);
      assert parts == [Param("country", key), Param("name", n)];
      assert expected == [("country", key), ("name", n)];
      DecodeTwo(Param("country", key), Param("name", n));
    } else if !IsEmpty(description) {
      var d := description.value;
      DecodeParam("description", d);
      assert parts == [Param("country", key), Param("description", d)];
      assert expected == [("country", key), ("description", d)];
      DecodeTwo(Param("country", key), Param("description", d));
    } else {
      assert parts == [Param("country", key)];
      assert expected == [("country", key)];
    }
  }

  /** The query string of a drill-down link splits into its pieces. */
  lemma LinkQuerySplit(key: string, name: Option<string>, description: Option<string>, country: Option<string>)
    requires '&' !in key && Unescaped(name) && Unescaped(description)
    ensures Split(Param("country", key) + QueryParams(name, description, country), '&') == LinkParts(key, name, description)
  {
    NoTrimWhenUnescaped(name, description, country);
    LinkPartsUnescaped(key, name, description);
    LinkQueryJoin(key, name, description);
    SplitJoin(LinkParts(key, name, description), '&');
  }

  /** The link for one country bucket: the search URL with that country and the other filters. */
  function DrillDownUri(serverFullAddress: string, key: string, queryParams: string): string {
    serverFullAddress + "/products?country=" + key + queryParams
  }

  /** A drill-down link is the address, `/products?`, then its query string. */
  lemma LinkUriShape(serverFullAddress: string, key: string, qp: string)
    ensures var uri := DrillDownUri(serverFullAddress, key, qp);
      && uri[..|serverFullAddress| + 10] == serverFullAddress + "/products?"
      && uri[|serverFullAddress| + 10..] == Param("country", key) + qp
  {
    assert "/products?country=" == "/products?" + "country" + "=";
    assert DrillDownUri(serverFullAddress, key, qp) == serverFullAddress + "/products?" + (Param("country", key) + qp);
  }

  /**
    Reading the query string of a drill-down link back gives the bucket's
    country followed by the non-empty name and description filters, provided
    no value contains the `&` separator (values are not URL-encoded).
   */
  lemma DrillDownRoundTrip(serverFullAddress: string, key: string,
                           name: Option<string>, description: Option<string>, country: Option<string>)
    requires '&' !in key && Unescaped(name) && Unescaped(description)
    ensures var uri := DrillDownUri(serverFullAddress, key, QueryParams(name, description, country));
      && uri[..|serverFullAddress| + 10] == serverFullAddress + "/products?"
      && DecodeQuery(uri[|serverFullAddress| + 10..]) == LinkParams(key, name, description)
  {
    LinkUriShape(serverFullAddress, key, QueryParams(name, description, country));
    LinkQuerySplit(key, name, description, country);
    DecodeLinkParts(key, name, description);
  }

  /** The parameters of a drill-down link name the bucket's country and the non-empty filters. */
  lemma LookupLinkParams(key: string, name: Option<string>, description: Option<string>)
    ensures Lookup(LinkParams(key, name, description), "country") == Some(key)
    ensures Lookup(LinkParams(key, name, description), "name") == Normalize(name)
    ensures Lookup(LinkParams(key, name, description), "description") == Normalize(description)
  {
    var ps := LinkParams(key, name, description);
    assert ps[0] == ("country", key);
    if !IsEmpty(name) {
      assert ps[1] == ("name", name.value);
    }
    if !IsEmpty(description) {
      assert ps[|ps| - 1] == ("description", description.value);
    }
  }
}
