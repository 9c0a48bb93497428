# Products search façade: query construction and response statuses

This project models the decision logic of a small REST service that fronts a
document-search engine holding product documents. Two pieces are modelled as
pure functions over abstract values; the search engine and the products
service are parameters, never code.

**The product search of the data-access repository** (`query.dfy`,
`query_string.dfy`, `data_access.dfy`, `products.dfy`). The optional filters `name`,
`description` and `country` are nullable strings, modelled as
`Option<string>`; a filter counts as empty when it is null or `""`, the test
of Apache Commons `StringUtils.isEmpty`. The search builds a boolean query
whose "must" clauses are, in this order: an exact term on `country`, a full-text
match on `name`, a bool-prefix multi-match of the description over the fields
`description`, `description._2gram` and `description._3gram`, each only for a
non-empty filter; a match-all clause when none of the three was added; and
always the implicit filter `visible = true`. The model proves that this list is
fully determined by a declarative description (exactly the allowed clauses,
in rank order), and states each clause's presence as an if-and-only-if.

When country counts are requested, the request carries a terms aggregation on
`country` (at most 1000 buckets) and asks for zero hits. For each bucket the
engine returns, the response holds the country, its document count narrowed
from a Java `long` to an `int` (low 32 bits, two's complement), and a
drill-down link `serverFullAddress + "/products?country=" + key + queryParams`,
where `queryParams` is `&name=<name>` and `&description=<description>` for the
non-empty filters, with one trailing `&` removed. Because every segment starts
with `&`, that trim never removes a separator: it fires only when the last
non-empty filter value itself ends with `&`, and then removes that value's last
character (`QueryString.TrimTakesValueCharacter`). The partner of the link
builder is a simplified decoder of query strings (split on `&`, cut each piece
at its first `=`, nothing else): under that decoder, a link reads back as the
bucket's country and the non-empty filters, and re-running the search with them
yields the original query with the country clause replaced by the bucket's
country. Values are concatenated without URL encoding, so these two lemmas
require values free of `&`; and since the decoder does no percent-decoding, no
`+`-to-space conversion and no fragment handling, they say nothing about what a
real HTTP server reads back from values containing `%`, `+`, `#` or whitespace.

**The status decisions of the products controller** (`controller.dfy`).
Fetching a product by id answers 200 with the product, or 404 with no body
when the service found nothing; deleting answers 200 only when the service
returned exactly `TRUE` (`FALSE` and null give 404); creating answers 201 with
the created product or 400; updating answers 400 without calling the service
when the path id differs from the product's id (a null id never matches), and
otherwise calls the service's update once and echoes the request body with 200.

`wrappers.dfy` holds `Option`; `text.dfy` holds the string helpers (emptiness,
suffix test, split and join with the proof that splitting undoes joining).

## Model

| member | source | states |
|---|---|---|
| Query.MustClauses | src/main/java/com/unir/products/data/DataAccessRepository.java:81-103 | the last clause is `visible = true`; with no filter the list is exactly match-all then visibility; a country term, a name match, a description prefix match and match-all each appear iff their condition holds, carrying the filter's value; clauses are in strictly increasing rank (country, name, description or match-all, visibility) |
| Query.MustClausesMeetsSpec | src/main/java/com/unir/products/data/DataAccessRepository.java:81-103 | the built list holds only allowed clauses, all of them, in rank order |
| Query.MustListUnique | src/main/java/com/unir/products/data/DataAccessRepository.java:81-103 | any clause list meeting the declarative description equals the built one, so presence and order pin the query down |
| Query.OneDescriptionClause | src/main/java/com/unir/products/data/DataAccessRepository.java:91-93 | a non-empty description yields exactly one multi-match clause, over `description`, `description._2gram`, `description._3gram` in that order |
| Query.MustClausesNormalize | src/main/java/com/unir/products/data/DataAccessRepository.java:83-91 | a null filter and an empty-string filter build the same query |
| DataAccess.BuildSearchRequest | src/main/java/com/unir/products/data/DataAccessRepository.java:105-110 | the request carries the must clauses; the country aggregation is attached iff aggregation is requested, and exactly then the maximum number of hits is 0 |
| QueryString.QueryParams | src/main/java/com/unir/products/data/DataAccessRepository.java:145-150 | the result is a prefix of the concatenated segments, shorter by exactly one character when they end with `&` and equal to them otherwise; empty when name and description are both empty |
| QueryString.QueryParamsOrder | src/main/java/com/unir/products/data/DataAccessRepository.java:146-147 | the result starts with `&name=` for a non-empty name, with `&description=` when only the description is set, and with `&name=<name>&description=` when both are, so the name segment precedes the description segment |
| QueryString.QueryParamsIgnoresCountry | src/main/java/com/unir/products/data/DataAccessRepository.java:145-147 | the country argument never changes the query string |
| QueryString.TrimTakesValueCharacter | src/main/java/com/unir/products/data/DataAccessRepository.java:146-149 | trimming happens iff the last non-empty filter value ends with `&`, so the removed character always belongs to a value |
| QueryString.NoTrimWhenUnescaped | src/main/java/com/unir/products/data/DataAccessRepository.java:148-149 | with no `&` inside the values the concatenation is returned unchanged |
| QueryString.DrillDownRoundTrip | src/main/java/com/unir/products/data/DataAccessRepository.java:125-132 | a bucket's link is the server address, `/products?`, and a query string that decodes to the bucket's country, then the non-empty name, then the non-empty description |
| DataAccess.DrillDownNarrowsToBucket | src/main/java/com/unir/products/data/DataAccessRepository.java:125-132 | searching with the parameters read back from a bucket's link builds the original name and description clauses with the bucket's country in place of the original country filter |
| DataAccess.BuildAggregationDetails | src/main/java/com/unir/products/data/DataAccessRepository.java:126-132 | one entry per bucket in bucket order, with the bucket's key, its count narrowed to `int`, and the link address, `/products?country=`, key, query string |
| DataAccess.FindProducts | src/main/java/com/unir/products/data/DataAccessRepository.java:79-134 | the engine is asked the built request; the response's products are the engine's hits; facet entries are empty when the answer has no aggregations and otherwise follow the buckets one to one with their links |
| Products.ToInt32 | src/main/java/com/unir/products/data/DataAccessRepository.java:131 | the narrowed count is congruent to the `long` modulo 2^32 and equals it whenever it fits in an `int` |
| Controller.GetProduct | src/main/java/com/unir/products/controller/ProductsController.java:53-57 | 200 iff the service found the product, 404 otherwise; the body is exactly the found product |
| Controller.DeleteProduct | src/main/java/com/unir/products/controller/ProductsController.java:64-70 | 200 iff the service answered `TRUE`; `FALSE` or null give 404; never a body |
| Controller.CreateProduct | src/main/java/com/unir/products/controller/ProductsController.java:77-83 | 201 iff a product was created, 400 otherwise; the body is exactly the created product |
| Controller.UpdateProduct | src/main/java/com/unir/products/controller/ProductsController.java:96-100 | differing ids give 400, no body and no service call; matching ids give one service update and 200 echoing the body; the service only ever receives a product whose id equals the path id |
| Controller.BodyOnlyOnSuccess | src/main/java/com/unir/products/controller/ProductsController.java:53-100 | no handler attaches a body to a 4xx status |

## Left out

- The search engine and Spring Data calls (`search`, `index`, `save`, `delete`, `findById`): their behaviour is not visible, so the engine is a function parameter of `DataAccess.FindProducts` and the service's answers are inputs of the controller handlers.
- Relevance scoring, tokenisation, n-gram matching and the aggregation itself: the engine's semantics. In particular the 1000-bucket cap is stated in the request but not assumed of the engine's answer.
- The repository's `getSuggestions`, `getCategoryFacets`, `getCountryFacets`, `getVisibleProductCount` and `updateProduct`, and the pass-through `save`, `delete` and `findById`: each is one delegated engine call plus copying results, with no decision logic.
- The controller's `getProducts`, `getSuggestions`, `getCountryFacets` and `getVisibleProductCount`: they forward the service's answer with 200; header logging, routing annotations and request binding are framework concerns.
- The products service: only its interface exists in the source, so its implementation is not part of this model.
- A null `aggregate` flag: unboxing it would throw, but the controller binds it with a default of `false`, so it is modelled as `bool`.
- An answer that has aggregations but no "Country Aggregation" entry would throw; the model folds "has aggregations" and "has the country aggregation" into one optional bucket list.
- Exceptions thrown by the engine, which the repository rethrows unchecked.
- URL encoding: the source concatenates raw values, and so does the model.
- QueryString.DecodeQuery: a simplified query-string decoder with no percent-decoding, no `+`-to-space conversion and no fragment (`#`) handling, so the round trip says nothing about values containing `%`, `+`, `#` or whitespace, which a real server would read back differently from the raw values the link carries.
- QueryString.DrillDownRoundTrip: requires the key and filter values to contain no `&`, because unencoded values with `&` split into extra parameters; it holds only for the simplified decoder described under QueryString.DecodeQuery.
- DataAccess.DrillDownNarrowsToBucket: additionally requires a non-empty bucket key, since an empty key would read back as no country filter.
