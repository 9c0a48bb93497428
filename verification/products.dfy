/** The records exchanged between the repository, the search engine and the controller. */
module Products {
  import opened Wrappers

  /** A Java `long`. */
  type Long = x: int | -0x8000_0000_0000_0000 <= x < 0x8000_0000_0000_0000

  /** A Java `int`. */
  type Int32 = x: int | -0x8000_0000 <= x < 0x8000_0000

  /**
    A product document. Only its identifier matters to the logic modelled here;
    the remaining attributes are carried along unchanged.
   */
  datatype Product = Product(id: Option<string>, attributes: map<string, string>)

  /** One bucket of the engine's terms aggregation on the country field. */
  datatype Bucket = Bucket(key: string, docCount: Long)

  /** A country facet in the response, with a link that narrows the search to it. */
  datatype AggregationDetails = AggregationDetails(key: string, count: Int32, uri: string)

  /** The answer to a product search: the matching products and the country facets. */
  datatype ProductsQueryResponse = ProductsQueryResponse(products: seq<Product>, aggs: seq<AggregationDetails>)

  /**
    Java's narrowing conversion `(int)` from `long`: keeps the low 32 bits as a
    two's-complement value.
   */
  function ToInt32(x: Long): (r: Int32)
    ensures (x - r) % 0x1_0000_0000 == 0
    ensures -0x8000_0000 <= x < 0x8000_0000 ==> r == x
  {
    var low := x % 0x1_0000_0000;
    if low < 0x8000_0000 then low else low - 0x1_0000_0000
  }
}
