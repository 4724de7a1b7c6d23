/** Identifiers and the failure type shared by every route of the back office. */
module Base {

  /** Mongo `_id` values, modelled as naturals so that `_id: -1` sorting is a plain order. */
  type ProductId = nat
  type OrderId = nat
  type UserId = nat

  /** The failures a route reports to its caller. */
  datatype Error =
    | NotFound          // the referenced product, order or user does not exist (HTTP 404)
    | InvalidArgument   // a page or page size the store cannot serve
    | CastError         // a query value the schema cannot cast, such as NaN for a Number field
    | AlreadyPaid       // reported only by the guarded pay transition
    | NotPaid           // reported only by the guarded deliver transition

  datatype Result<T> = Ok(value: T) | Err(error: Error)

  datatype Option<T> = None | Some(value: T)
}
