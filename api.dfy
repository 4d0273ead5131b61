/**
 * One request through the API: the router picks a handler (or refuses, or
 * falls through to the catch-all) and the handler runs against the store.
 * What the environment decides (parsed numbers, the aggregation, fresh ids,
 * the clock, the outcome of the rating save, the authentication controller's
 * answer) arrives in `Env`.
 */
module Api {
  import opened Js
  import opened Schema
  import opened Http
  import opened Store
  import opened Routes
  import Locations
  import Reviews

  /** The parts of an Express request the handlers read. */
  datatype Request = Request(
    verb: Verb,
    path: seq<string>,
    /** The token middleware's verdict on the `Authorization` header. */
    tokenValid: bool,
    query: Locations.Query,
    locationFields: Locations.LocationFields,
    patch: Locations.LocationPatch,
    reviewFields: Reviews.ReviewFields)

  datatype Env = Env(
    parseFloat: string -> real,
    /** The ODM's cast of text to `Number`; None when the text is not a number. */
    castNumber: string -> Option<real>,
    aggregate: Locations.GeoNear -> Option<seq<Locations.GeoResult>>,
    newId: string,
    reviewId: string,
    now: Time,
    ratingSaveOk: bool,
    authResponse: Response)

  /** `req.params[name]`; a missing parameter reads as the empty (falsy) string. */
  function Arg(ps: Params, name: string): string {
    if name in ps then ps[name] else ""
  }

  /** The handlers that write to the location collection. */
  predicate Writes(h: Handler) {
    h == LocationsCreate || h == LocationsUpdateOne || h == LocationsDeleteOne ||
    h == ReviewsCreate || h == ReviewsUpdateOne || h == ReviewsDeleteOne
  }

  /** What handler `h` answers, with the bound parameters `ps`, and the collection afterwards. */
  function HandlerEffect(h: Handler, ps: Params, req: Request, env: Env, m: map<string, Location>)
    : (Response, map<string, Location>)
  {
    var id := Arg(ps, "locationid");
    var rid := Arg(ps, "reviewid");
    match h
    case LocationsListByDistance => (Locations.ListByDistance(req.query, env.parseFloat, env.aggregate), m)
    case LocationsCreate => Locations.CreateEffect(m, req.locationFields, env.parseFloat, env.newId)
    case LocationsReadOne => (Locations.ReadOne(m, id), m)
    case LocationsUpdateOne => Locations.UpdateEffect(m, id, req.patch)
    case LocationsDeleteOne => Locations.DeleteEffect(m, id)
    case ReviewsCreate =>
      Reviews.CreateEffect(m, id, req.reviewFields, env.castNumber, env.reviewId, env.now, env.ratingSaveOk)
    case ReviewsReadOne => (Reviews.ReadOne(m, id, rid), m)
    case ReviewsUpdateOne => Reviews.UpdateEffect(m, id, rid, req.reviewFields, env.castNumber, env.ratingSaveOk)
    case ReviewsDeleteOne => Reviews.DeleteEffect(m, id, rid, env.ratingSaveOk)
    case Register => (env.authResponse, m)
    case Login => (env.authResponse, m)
  }

  /** Only the six writing handlers change the collection. */
  lemma ReadersLeaveStore(h: Handler, ps: Params, req: Request, env: Env, m: map<string, Location>)
    requires !Writes(h)
    ensures HandlerEffect(h, ps, req, env, m).1 == m
  {
  }

  method Serve(db: LocationStore, req: Request, env: Env) returns (res: Response)
    requires db.Valid()
    requires env.newId != "" && env.newId !in db.locations
    modifies db
    ensures db.Valid()
    ensures var o := Dispatch(req.verb, req.path, req.tokenValid);
            old(db.AllValid()) && (o.Call? && o.handler == LocationsUpdateOne ==> Locations.PatchValid(req.patch))
            ==> db.AllValid()
    ensures Dispatch(req.verb, req.path, req.tokenValid).NoRoute? ==>
              res == Response(NotFound, Message(EndpointNotFound)) && db.locations == old(db.locations)
    ensures Dispatch(req.verb, req.path, req.tokenValid).Rejected? ==>
              res == Response(Unauthorized, CredentialsRequired) && db.locations == old(db.locations)
    ensures var o := Dispatch(req.verb, req.path, req.tokenValid);
            o.Call? && !Writes(o.handler) ==> db.locations == old(db.locations)
    ensures var o := Dispatch(req.verb, req.path, req.tokenValid);
            o.Call? ==> (res, db.locations) == HandlerEffect(o.handler, o.params, req, env, old(db.locations))
  {
    var o := Dispatch(req.verb, req.path, req.tokenValid);
    match o
    case NoRoute =>
      res := Response(NotFound, Message(EndpointNotFound));
    case Rejected =>
      res := Response(Unauthorized, CredentialsRequired);
    case Call(h, ps) =>
      var id := Arg(ps, "locationid");
      var rid := Arg(ps, "reviewid");
      match h
      case LocationsListByDistance =>
        res := Locations.ListByDistance(req.query, env.parseFloat, env.aggregate);
      case LocationsCreate =>
        res := Locations.Create(db, req.locationFields, env.parseFloat, env.newId);
      case LocationsReadOne =>
        res := Locations.ReadOne(db.locations, id);
      case LocationsUpdateOne =>
        res := Locations.UpdateOne(db, id, req.patch);
      case LocationsDeleteOne =>
        res := Locations.DeleteOne(db, id);
      case ReviewsCreate =>
        res := Reviews.Create(db, id, req.reviewFields, env.castNumber, env.reviewId, env.now, env.ratingSaveOk);
      case ReviewsReadOne =>
        res := Reviews.ReadOne(db.locations, id, rid);
      case ReviewsUpdateOne =>
        res := Reviews.UpdateOne(db, id, rid, req.reviewFields, env.castNumber, env.ratingSaveOk);
      case ReviewsDeleteOne =>
        res := Reviews.DeleteOne(db, id, rid, env.ratingSaveOk);
      case Register =>
        res := env.authResponse;
      case Login =>
        res := env.authResponse;
  }

  /** Deleting a location takes its reviews with it: none of them reads back. */
  lemma ReviewsGoneWithLocation(m: map<string, Location>, id: string, rid: string)
    ensures Reviews.ReadOne(m - {id}, id, rid) == Response(NotFound, Message("Location not found"))
  {
  }

  /**
   * `reviewsReadOne` has no check for a missing location id: an empty id
   * finds no document because generated ids are never empty.
   */
  lemma EmptyIdFindsNoLocation(db: LocationStore, rid: string)
    requires db.Valid()
    ensures Reviews.ReadOne(db.locations, "", rid) == Response(NotFound, Message("Location not found"))
  {
  }

  /**
   * `PUT /locations/:locationid` carries no token guard (`LocationWriteRoutes`
   * binds it whatever the token) and sets any top-level field, so a request
   * without a token replaces a location's reviews and its rating, whatever the
   * mean of those reviews.
   */
  lemma NoTokenRewritesReviews(req: Request, env: Env, m: map<string, Location>, id: string,
                               reviews: seq<Review>, rating: real)
    requires id != "" && id in m
    requires req.patch.reviews == Some(reviews) && req.patch.rating == Some(rating)
    ensures var e := HandlerEffect(LocationsUpdateOne, map["locationid" := id], req, env, m);
            && e.0.status == Ok
            && id in e.1 && e.1[id].reviews == reviews && e.1[id].rating == rating
  {
    assert Arg(map["locationid" := id], "locationid") == id;
  }

  /** Without a valid token, no request reaches a review write handler. */
  lemma NoTokenNoReviewWrites(verb: Verb, path: seq<string>)
    ensures Dispatch(verb, path, false).Call? ==> !Guarded(Dispatch(verb, path, false).handler)
  {
    if Dispatch(verb, path, false).Call? && Guarded(Dispatch(verb, path, false).handler) {
      GuardedNeedsToken(verb, path, false);
    }
  }
}
