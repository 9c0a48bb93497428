/**
  The product search of the data-access repository: the search request built
  from the optional filters, the query string that repeats the name and
  description filters, and one drill-down link per country bucket of the
  aggregation. The search engine itself is a parameter.
 */
module DataAccess {
  import opened Wrappers
  import opened Query
  import opened Products
  import opened QueryString

  /** A terms aggregation: its name, the field it groups by and the most buckets it returns. */
  datatype TermsAggregation = TermsAggregation(name: string, field: string, size: nat)

  /** Counts products per country, up to 1000 countries. */
  const CountryAggregation: TermsAggregation := TermsAggregation("Country Aggregation", "country", 1000)

  /**
    The request handed to the search engine. `maxResults` is `None` when the
    engine's default page size applies.
   */
  datatype SearchRequest = SearchRequest(must: seq<Clause>, aggregation: Option<TermsAggregation>, maxResults: Option<nat>)

  /**
    What the engine answers: the matching products and, when the answer carries
    aggregations, the buckets of the country aggregation in the engine's order.
   */
  datatype SearchHits = SearchHits(products: seq<Product>, countryBuckets: Option<seq<Bucket>>)

  /** The request for the given filters; with `aggregate` it asks for country counts only. */
  function BuildSearchRequest(name: Option<string>, description: Option<string>, country: Option<string>, aggregate: bool): (r: SearchRequest)
    ensures r.must == MustClauses(name, description, country)
    ensures r.aggregation.Some? <==> aggregate
    ensures r.aggregation.Some? ==> r.aggregation.value == CountryAggregation
    ensures r.maxResults == Some(0) <==> aggregate
    ensures !aggregate ==> r.maxResults.None?
  {
    var must := MustClauses(name, description, country);
    if aggregate then SearchRequest(must, Some(CountryAggregation), Some(0))
    else SearchRequest(must, None, None)
  }

  /**
    Following the drill-down link of a bucket searches with the same name and
    description filters as the original request, narrowed to the bucket's
    country instead of the original country filter.
   */
  lemma DrillDownNarrowsToBucket(serverFullAddress: string, key: string,
                                 name: Option<string>, description: Option<string>, country: Option<string>)
    requires key != "" && '&' !in key && Unescaped(name) && Unescaped(description)
    ensures var uri := DrillDownUri(serverFullAddress, key, QueryParams(name, description, country));
      var ps := DecodeQuery(uri[|serverFullAddress| + 10..]);
      var followed := MustClauses(Lookup(ps, "name"), Lookup(ps, "description"), Lookup(ps, "country"));
      && followed == MustClauses(name, description, Some(key))
      && CountryClause(key) in followed
  {
    DrillDownRoundTrip(serverFullAddress, key, name, description, country);
    LookupLinkParams(key, name, description);
    MustClausesNormalize(name, description, Some(key));
  }

  /** One response entry per bucket, in bucket order, each with its drill-down link. */
  method BuildAggregationDetails(serverFullAddress: string, buckets: seq<Bucket>, queryParams: string)
    returns (details: seq<AggregationDetails>)
    ensures |details| == |buckets|
    ensures forall i :: 0 <= i < |buckets| ==>
      && details[i].key == buckets[i].key
      && details[i].count == ToInt32(buckets[i].docCount)
      && details[i].uri == serverFullAddress + "/products?country=" + buckets[i].key + queryParams
  {
    details := [];
    var i := 0;
    while i < |buckets|
      invariant 0 <= i <= |buckets|
      invariant |details| == i
      invariant forall j :: 0 <= j < i ==>
        && details[j].key == buckets[j].key
        && details[j].count == ToInt32(buckets[j].docCount)
        && details[j].uri == serverFullAddress + "/products?country=" + buckets[j].key + queryParams
    {
      var b := buckets[i];
      details := details + [AggregationDetails(b.key, ToInt32(b.docCount), DrillDownUri(serverFullAddress, b.key, queryParams))];
      i := i + 1;
    }
  }

  /**
    The product search: builds the request, asks the engine, and turns the
    engine's country buckets (when it returns aggregations) into facet entries.
   */
  method FindProducts(serverFullAddress: string, name: Option<string>, description: Option<string>,
                      country: Option<string>, aggregate: bool, engine: SearchRequest -> SearchHits)
    returns (request: SearchRequest, response: ProductsQueryResponse)
    ensures request == BuildSearchRequest(name, description, country, aggregate)
    ensures response.products == engine(request).products
    ensures engine(request).countryBuckets.None? ==> response.aggs == []
    ensures engine(request).countryBuckets.Some? ==>
      var buckets := engine(request).countryBuckets.value;
      && |response.aggs| == |buckets|
      && forall i :: 0 <= i < |buckets| ==>
        && response.aggs[i].key == buckets[i].key
        && response.aggs[i].count == ToInt32(buckets[i].docCount)
        && response.aggs[i].uri == serverFullAddress + "/products?country=" + buckets[i].key
                                   + QueryParams(name, description, country)
  {
    request := BuildSearchRequest(name, description, country, aggregate);
    var hits := engine(request);
    var aggs := [];
    if hits.countryBuckets.Some? {
      var queryParams := QueryParams(name, description, country);
      aggs := BuildAggregationDetails(serverFullAddress, hits.countryBuckets.value, queryParams);
    }
    response := ProductsQueryResponse(hits.products, aggs);
  }
}
