/** The responses the views return: a status code and, for a 400, the kind of validation failure. */
module Http {

  /** Why a request was refused with 400 Bad Request. */
  datatype Reason =
    | InvalidInput        // the request serializer rejected a field
    | FormatRequired      // a paperback-and-ebook product was added without a chosen format
    | OutOfStock          // a quantity exceeds the product's stock
    | CartEmpty           // no cart, or a cart without lines, at checkout
    | ProvideQuantity     // guest update without a (truthy) quantity
    | NotANumber          // guest update with a quantity that int() cannot parse
    | NotPositive         // guest update with a quantity <= 0
    | MissingSignature    // webhook without the provider's signature header
    | InvalidPayload      // webhook body the provider library cannot parse
    | InvalidSignature    // webhook whose signature does not verify
    | ProviderFailed      // the payment provider refused to create a checkout session
    | MissingCredentials  // login without email or password
    | NoCompany           // vendor analytics or dashboard for a user without a company

  datatype Reply =
    | Ok
    | Created
    | NoContent
    | BadRequest(reason: Reason)
    | Unauthorized
    | Forbidden
    | NotFound
    | InternalError

  /** The HTTP status code of a reply. */
  function Code(r: Reply): (c: int)
    ensures 200 <= c < 600
    ensures c < 300 <==> r.Ok? || r.Created? || r.NoContent?
  {
    match r
    case Ok => 200
    case Created => 201
    case NoContent => 204
    case BadRequest(_) => 400
    case Unauthorized => 401
    case Forbidden => 403
    case NotFound => 404
    case InternalError => 500
  }
}
