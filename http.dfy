/**
 * What a handler sends back: a status code and a body. A body is either a
 * JSON document, the error page `res.render('generic-text', …)` draws, or
 * nothing (`res.status(204).json(null)`).
 */
module Http {
  import opened Js
  import opened Schema

  const Ok: int := 200
  const Created: int := 201
  const NoContentStatus: int := 204
  const BadRequest: int := 400
  const Unauthorized: int := 401
  const NotFound: int := 404
  const InternalError: int := 500

  /** One entry of the proximity listing. */
  datatype ListEntry = ListEntry(
    id: string,
    name: string,
    address: Option<string>,
    facilities: seq<string>,
    distanceKm: real)

  datatype Body =
    | Message(text: string)
    | LocationDoc(id: string, location: Location)
    | LocationList(entries: seq<ListEntry>)
    | ReviewDoc(review: Review)
    | ReviewWithLocation(locationName: string, locationId: string, review: Review)
    | ErrorPage(title: string, content: string)
    /** The ODM's validation error object, sent as it is. */
    | ValidationFailure
    /** The credential error of the token middleware, drawn by the application's error page. */
    | CredentialsRequired
    /** A body produced outside this model (the authentication controller's). */
    | External
    | NoBody

  datatype Response = Response(status: int, body: Body)
}
