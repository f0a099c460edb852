/**
 * What a catalog handler writes back, with the HTTP status codes and error
 * bodies the handlers use. Header setting and JSON encoding are not modelled.
 */
module Http {

  const StatusBadRequest: int := 400
  const StatusNotFound: int := 404

  const InvalidBodyMessage: string := "{\"error\": \"Invalid request body\"}"

  datatype Reply<T> =
    | Ok(body: T)          // 200 with the item as JSON
    | Created(body: T)     // 201 with the new item as JSON
    | NoContent            // 204
    | Error(status: int, message: string)
}
