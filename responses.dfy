/**
 * The JSON answers of the controllers: the envelope built by jsonResponse
 * and the two answers the framework builds on its own.
 */
module Responses {
  import opened Wrappers
  import opened Tables

  /** One line of a transaction's detail. */
  datatype DetailLine = DetailLine(productName: string, quantity: int, price: int)

  /** The `data` member of an envelope. */
  datatype Payload =
    | NoData
    | Transactions(transactions: seq<Transaction>)
    | TransactionItems(lines: seq<DetailLine>)
    | TransactionId(transactionId: nat)
    | ProductData(product: Product)
    | Products(products: seq<Product>)

  datatype Response =
    | Envelope(success: bool, message: Option<string>, data: Payload, code: int)
      /** The framework's 422 answer to a failed validation that nothing catches. */
    | ValidationFailed
      /** The framework's 500 answer to an error that nothing catches. */
    | ServerError

  function StatusCode(r: Response): int
  {
    match r
    case Envelope(_, _, _, code) => code
    case ValidationFailed => 422
    case ServerError => 500
  }

  /** The envelope {success, message, data}: `success` holds exactly for a 2xx status. */
  function JsonResponse(data: Payload, message: Option<string>, code: int): (r: Response)
    ensures r.Envelope? && StatusCode(r) == code
    ensures r.data == data && r.message == message
    ensures r.success <==> 200 <= code < 300
  {
    Envelope(200 <= code && code < 300, message, data, code)
  }
}
