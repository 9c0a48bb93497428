/**
  The HTTP status decisions of the products controller. Each handler receives
  what the products service answered (a missing object is `None`) and picks a
  status and a body.
 */
module Controller {
  import opened Wrappers
  import opened Products

  datatype Status = Ok | Created | BadRequest | NotFound {

    /** The numeric HTTP status code. */
    function Code(): (c: int)
      ensures 200 <= c < 500
      ensures c < 300 <==> this in {Ok, Created}
    {
      match this
      case Ok => 200
      case Created => 201
      case BadRequest => 400
      case NotFound => 404
    }
  }

  /** A response entity: a status and an optional body. */
  datatype Response<T> = Response(status: Status, body: Option<T>)

  /** `GET /products/{id}`: the product the service found, or 404 with no body. */
  function GetProduct(found: Option<Product>): (r: Response<Product>)
    ensures r.status.Code() == 200 <==> found.Some?
    ensures r.status.Code() == 404 <==> found.None?
    ensures r.body == found
  {
    match found
    case Some(p) => Response(Ok, Some(p))
    case None => Response(NotFound, None)
  }

  /**
    `DELETE /products/{id}`: 200 only when the service answered exactly `TRUE`;
    `FALSE` and null both give 404. Neither carries a body.
   */
  function DeleteProduct(removed: Option<bool>): (r: Response<()>)
    ensures r.status.Code() == 200 <==> removed == Some(true)
    ensures r.status.Code() == 404 <==> removed != Some(true)
    ensures r.body.None?
  {
    if removed == Some(true) then Response(Ok, None) else Response(NotFound, None)
  }

  /** `POST /products`: 201 with the created product, or 400 with no body. */
  function CreateProduct(created: Option<Product>): (r: Response<Product>)
    ensures r.status.Code() == 201 <==> created.Some?
    ensures r.status.Code() == 400 <==> created.None?
    ensures r.body == created
  {
    if created.Some? then Response(Created, created) else Response(BadRequest, None)
  }

  /** The response to an update together with the products handed to the service's update. */
  datatype UpdateOutcome = UpdateOutcome(response: Response<Product>, updated: seq<Product>)

  /**
    `PUT /products/{id}`: refuses with 400 and leaves the service alone when the
    path id differs from the product's own id (a null id never matches);
    otherwise updates once and echoes the request body with 200.
   */
  function UpdateProduct(id: string, product: Product): (r: UpdateOutcome)
    ensures product.id != Some(id) ==> r.response == Response(BadRequest, None) && r.updated == []
    ensures product.id == Some(id) ==> r.response == Response(Ok, Some(product)) && r.updated == [product]
    ensures forall p :: p in r.updated ==> p.id == Some(id)
    ensures r.response.body.Some? ==> r.updated == [r.response.body.value]
  {
    if product.id != Some(id) then UpdateOutcome(Response(BadRequest, None), [])
    else UpdateOutcome(Response(Ok, Some(product)), [product])
  }

  /** Every handler attaches a body only to a success status. */
  lemma BodyOnlyOnSuccess(found: Option<Product>, removed: Option<bool>, created: Option<Product>,
                          id: string, product: Product)
    ensures GetProduct(found).body.Some? ==> GetProduct(found).status.Code() < 300
    ensures DeleteProduct(removed).body.None?
    ensures CreateProduct(created).body.Some? ==> CreateProduct(created).status.Code() < 300
    ensures UpdateProduct(id, product).response.body.Some? ==> UpdateProduct(id, product).response.status.Code() < 300
  {
  }
}
