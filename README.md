# loc8r-api: the REST core in Dafny

This project models the JSON API of loc8r, a directory of places (name, address, a GeoJSON point,
facilities, opening times) with reviews embedded in each place. The model covers four parts:

- The `Location` schema and its review and opening-time sub-documents. These become datatypes
  (`Schema`) and validity predicates.
- The collection of locations keyed by generated id. This becomes a class, `Store.LocationStore`,
  with a `locations` map field that the handlers reassign.
- The location controller (`Locations`): the proximity listing, create, read, update and delete,
  and the `showError` page.
- The review controller (`Reviews`): create, read, update and delete of one embedded review. After
  every write, the location's rating is recomputed as the mean of its review ratings.

The router (`Routes`) is a table of verb and path pattern rows. Three rows carry the token guard,
and a catch-all answers 404. `Api.Serve` runs one request: it dispatches, then calls the
controller against the store.

The environment enters as parameters:

- `parseFloat` is a function from text to a real.
- The `$geoNear` aggregation is a function from the stage to an optional result list. `None`
  means the aggregation failed.
- The id the store generates for a new location or review is given.
- The clock value for `createdOn` is given.
- Whether the rating save succeeds is a boolean.
- The ODM's cast of form text to `Number` is a function from text to an optional real.
- The token middleware's verdict is a boolean.
- The authentication controller's response is given whole.

Four behaviours of the code that the model keeps:

- A review's `author` comes from the request body (`app_api/controllers/reviews.js:49-50`), not
  from the authenticated identity.
- `PUT /locations/:id` runs no schema validators (`app_api/controllers/locations.js:188`), so an
  update can store a document that breaks the schema. `Locations.PatchSkipsValidation` exhibits
  one. Every later review save validates the whole embedded review list it loaded, so while a
  stored review breaks the schema, a review write whose resulting list still holds one answers
  400 and no rating is recomputed. The review handlers load only the reviews, and the rating save
  only the rating and the reviews (`app_api/controllers/reviews.js:26`, `44`, `100`, `134`), so
  other schema-breaking fields, such as a patched rating of 7, do not block them.
- Recomputing the rating is best effort. `updateAverageRating` logs a failed save and carries on
  (`app_api/controllers/reviews.js:11-16`, `30-32`), so review create, update and delete answer
  201, 200 or 204 whether or not the new rating was stored.
- `PUT /locations/:id` has no token guard (`app_api/routes/index.js:23`) and sets any top-level
  field, `reviews` and `rating` included (`app_api/controllers/locations.js:188`). So a request
  without a token can replace a location's reviews and its rating, and the stored rating then
  need not be the mean of the stored reviews (`Api.NoTokenRewritesReviews`). The token guards
  only the review routes.

Coding decisions:

- Ratings are `real`; the schema bounds them in [0, 5]. This also means the model has no NaN.
- JavaScript truthiness is explicit. A missing field is `None`, and `""` and `0` are falsy.
  Numeric body fields arrive as a JSON number or, from a form-encoded body (`app.js:27-28`), as
  text (`Js.BodyNumber`). A JSON rating of 0 is falsy, so a JSON review update cannot set a
  rating of 0 (`Reviews.MergeCannotSetZero`). The form text `"0"` is truthy, so a form-encoded
  update does set it (`Reviews.MergeFormZero`). A JSON `lng` or `lat` of 0 is refused by
  `locationsCreate` as missing.
- Review ids are not assumed unique. `reviews.id(x)` finds the first review with id `x`, and
  `reviews.pull(x)` removes every review with that id (`Reviews.FindReview`, `Reviews.Pull`).
  When the id is unique, `Reviews.PullAt` shows that exactly the found review goes.
- CastErrors and driver failures are not modelled, so an id that names no document is simply
  absent. The save validator is modelled where it decides the answer:
  - A save validates every embedded review. A review write whose resulting list has a review that
    breaks the schema, or whose rating text does not cast to a number, gives 400 with the
    validation error.
  - An opening time without `days` or `closed` makes `Loc.create` fail with 500.
  - A recomputed rating is not saved when it is outside [0, 5] or a stored review breaks the
    schema.

## Model

| member | source | states |
|---|---|---|
| Js.OrText | app_api/controllers/reviews.js:111-113 | `a || b` on text is the supplied value when it is truthy and the kept value otherwise; the result is truthy iff either operand is |
| Js.Split | app_api/controllers/locations.js:106 | `split(",")` always yields at least one piece |
| Js.JoinSplit | app_api/controllers/locations.js:106 | joining the pieces of `split(",")` with commas gives back the original text |
| Js.SplitPiecesCommaFree | app_api/controllers/locations.js:106 | no piece of `split(",")` contains a comma |
| Js.SplitCount | app_api/controllers/locations.js:106 | `split(",")` yields one piece more than the text has commas |
| Js.SplitJoin | app_api/controllers/locations.js:106 | splitting a comma-join of a non-empty list of comma-free pieces gives back those pieces (a piece may be empty) |
| Js.SplitCommaFree | app_api/controllers/locations.js:106 | comma-free text splits into itself alone |
| Js.SplitPrefix | app_api/controllers/locations.js:106 | a comma-free piece before a comma splits off as the first piece |
| Js.Decimal | app_api/controllers/locations.js:15 | the decimal rendering of a status code is never empty |
| Js.DecimalInjective | app_api/controllers/locations.js:15 | distinct numbers render as distinct decimal text |
| Schema.NewReview | app_api/models/locations.js:4-9 | a review sub-document is accepted iff author and text are non-empty and the rating is present and within [0, 5]; an accepted one carries the given id, fields and creation time and is valid |
| Schema.NewOpeningTime | app_api/models/locations.js:12-17 | an opening time is accepted iff `days` is non-empty and `closed` is present; an accepted one carries the given fields and is valid |
| Schema.NewLocation | app_api/models/locations.js:20-39 | a new document carries the given name, address, facilities, coordinates and opening times, starts with rating 0 and no reviews, and is valid when its name, coordinates and opening times are |
| Store.StoreKeepsValid | app_api/models/locations.js:20-39 | storing a schema-valid document keeps every document of the collection valid |
| Store.LocationStore.constructor | app_api/models/locations.js:45 | the collection starts empty and valid |
| Reviews.Mean | app_api/controllers/reviews.js:5-21 | the rating of no reviews is 0; otherwise the rating times the number of reviews equals the sum of their ratings |
| Reviews.SumBounds | app_api/controllers/reviews.js:8 | the sum of n in-range ratings lies within [0, 5n] |
| Reviews.MeanInRange | app_api/controllers/reviews.js:6-9 | the mean of in-range ratings is itself in range |
| Reviews.MeanOfFourAndFive | app_api/controllers/reviews.js:6-9 | ratings 4 and 5 give the location rating 4.5 |
| Reviews.Recompute | app_api/controllers/reviews.js:5-33 | recomputation changes only the rating, to the mean of the reviews or not at all; a failed store or a stored review outside the schema leaves the location unchanged |
| Reviews.RecomputedRating | app_api/controllers/reviews.js:5-33 | the stored rating is the mean exactly when the store succeeds and every review passes the schema, and the old rating otherwise; a valid location stays valid |
| Reviews.ValidReviewsInRange | app_api/models/locations.js:6 | schema-valid reviews have ratings in [0, 5] |
| Reviews.Merge | app_api/controllers/reviews.js:111-115 | there is no merged review iff a truthy rating fails the cast to `Number`; otherwise each of author, rating and text takes the supplied (cast) value when truthy and keeps the old one otherwise; id and creation time are kept |
| Reviews.MergeIdempotent | app_api/controllers/reviews.js:111-113 | applying the same update twice equals applying it once |
| Reviews.MergeCannotSetZero | app_api/controllers/reviews.js:112 | a JSON rating of 0 leaves the old rating in place |
| Reviews.MergeFormZero | app_api/controllers/reviews.js:112 | a form-encoded rating "0" that casts to 0 sets the rating to 0 |
| Reviews.MergeOnlyRating | app_api/controllers/reviews.js:111-113 | an update that supplies only a rating leaves author and text unchanged |
| Reviews.FindReview | app_api/controllers/reviews.js:73 | finds the position of the first review with the id, or reports that no review has it |
| Reviews.Pull | app_api/controllers/reviews.js:145 | the pulled list is never longer than the original |
| Reviews.PullSubset | app_api/controllers/reviews.js:145 | every review left by the pull comes from the list and has another id |
| Reviews.PullKeeps | app_api/controllers/reviews.js:145 | every review with another id is left by the pull |
| Reviews.PullKeepsValid | app_api/controllers/reviews.js:145-146 | pulling from schema-valid reviews leaves schema-valid reviews, so a delete on a location whose reviews pass the schema never answers 400 |
| Reviews.PullAppend | app_api/controllers/reviews.js:145 | pulling distributes over concatenation |
| Reviews.PullAbsent | app_api/controllers/reviews.js:145 | pulling an id no review has changes nothing |
| Reviews.PullAt | app_api/controllers/reviews.js:145 | when only position k has the id, pulling removes exactly the review at k |
| Reviews.ReadOne | app_api/controllers/reviews.js:64-89 | 404 "Location not found" or "Review not found"; 200 exactly when both exist, with the location's name and id and the first review of that location carrying the requested id |
| Reviews.AppendValid | app_api/controllers/reviews.js:50-52 | a review list with one review appended passes the schema iff the list and the review do |
| Reviews.FindAppended | app_api/controllers/reviews.js:50-55 | a review appended under an id no earlier review has is the one that id finds |
| Reviews.FindReplaced | app_api/controllers/reviews.js:105-115 | a review put in place of the first one with its id is found at that place |
| Reviews.PullGone | app_api/controllers/reviews.js:145 | after the pull, no review with the id is found |
| Reviews.ReplaceKeepsValid | app_api/controllers/reviews.js:111-115 | putting a schema-valid review in place of another keeps the review list valid |
| Reviews.SaveReviewsKeepsValid | app_api/controllers/reviews.js:5-33 | replacing a stored location's reviews by valid ones and recomputing its rating keeps every stored document valid |
| Reviews.UpdateAverageRating | app_api/controllers/reviews.js:24-33 | a present location gets its rating recomputed; otherwise the collection is unchanged |
| Reviews.CreateEffect | app_api/controllers/reviews.js:36-61 | 404 "Location ID is required" or "Location not found" with no change; 201 iff the body makes a schema-valid review (rating cast included) and every stored review passes the schema, with the new review as the body, appended last and the rating recomputed; otherwise 400 with no change |
| Reviews.ReadAfterCreate | app_api/controllers/reviews.js:36-89 | a created review with a fresh id reads back as the response showed it, under its location's name |
| Reviews.Create | app_api/controllers/reviews.js:36-61 | the answer and the new collection are those of `Reviews.CreateEffect`; schema validity of the collection is kept |
| Reviews.UpdateEffect | app_api/controllers/reviews.js:92-123 | 404 for missing ids, location or review with no change; 200 iff the merge succeeds and the list with the merged review in place of the first one with the id passes the schema, with that review as the body and the rating recomputed; otherwise 400 with no change |
| Reviews.ReadAfterUpdate | app_api/controllers/reviews.js:64-123 | an updated review reads back under its id as the response showed it |
| Reviews.UpdateOne | app_api/controllers/reviews.js:92-123 | the answer and the new collection are those of `Reviews.UpdateEffect`; schema validity of the collection is kept |
| Reviews.DeleteEffect | app_api/controllers/reviews.js:126-154 | 404 for missing ids, location or review with no change; 204 with no body iff the list with every review of that id pulled passes the schema, with the rating recomputed; otherwise 400 with no change |
| Reviews.ReadAfterDelete | app_api/controllers/reviews.js:64-154 | after a delete the review reads as 404 "Review not found" |
| Reviews.DeleteOne | app_api/controllers/reviews.js:126-154 | the answer and the new collection are those of `Reviews.DeleteEffect`; schema validity of the collection is kept |
| Locations.MeterToKilometer | app_api/controllers/locations.js:5 | kilometres times 1000 equal the metres |
| Locations.ShowError | app_api/controllers/locations.js:7-24 | the page carries the given status; 404 has the fixed "page not found" title and text, any other status has "<status>, something's gone wrong" |
| Locations.ShowErrorTitlesDistinct | app_api/controllers/locations.js:11-17 | two different statuses produce different page titles |
| Locations.ShowErrorInternal | app_api/controllers/locations.js:15 | status 500 is titled "500, something's gone wrong" |
| Locations.GeoQuery | app_api/controllers/locations.js:28-56 | the stage searches near the point [lng, lat] over `coords`, spherically, within the parsed radius or 300000 m by default, writing `distance.calculated` |
| Locations.Shape | app_api/controllers/locations.js:59-65 | one entry per result, in the aggregation's order, with id, name, address and facilities copied and the distance in kilometres |
| Locations.ShapeAppend | app_api/controllers/locations.js:59-65 | shaping distributes over concatenation of result lists |
| Locations.ListByDistance | app_api/controllers/locations.js:27-72 | 400 when `lng` or `lat` is falsy; 500 when the aggregation fails; otherwise 200 with the shaped results |
| Locations.Build | app_api/controllers/locations.js:75-125 | 400 exactly when name, lng, lat or facilities is falsy; then 500 exactly when an opening time breaks the schema (the `2dsphere` index and Boolean-cast failures are left out); otherwise a valid document with the given name and address, the comma-split facilities, the point [lng, lat], the two opening times, rating 0 and no reviews |
| Locations.BuildFacilities | app_api/controllers/locations.js:106 | the stored facilities re-join to the submitted text, number one more than its commas and contain no comma |
| Locations.CreateEffect | app_api/controllers/locations.js:74-131 | 201 iff the fields build a document; a refusal answers with its response and no change; otherwise the document is the body, stored under the new id with nothing else changed, and reads back as that body |
| Locations.Create | app_api/controllers/locations.js:74-131 | the answer and the new collection are those of `Locations.CreateEffect`, for a fresh non-empty id; schema validity is kept |
| Locations.ReadOne | app_api/controllers/locations.js:156-175 | 200 with the document exactly when the id is non-empty and present; otherwise the 404 page |
| Locations.PatchSetsSuppliedFields | app_api/controllers/locations.js:188 | each of the seven fields is replaced when supplied and kept otherwise; patching twice equals patching once; an empty patch is the identity |
| Locations.PatchKeepsValid | app_api/controllers/locations.js:188 | a patch whose supplied fields satisfy the schema keeps a valid document valid |
| Locations.PatchSkipsValidation | app_api/controllers/locations.js:188 | a patch setting the rating to 7 yields a document outside the schema |
| Locations.UpdateEffect | app_api/controllers/locations.js:180-199 | 200 iff the id is non-empty and present, with the patched document that replaced the stored one and reads back as the body; otherwise the 404 page and no change |
| Locations.UpdateOne | app_api/controllers/locations.js:180-199 | the answer and the new collection are those of `Locations.UpdateEffect`; validity is kept when the patch passes the schema |
| Locations.DeleteEffect | app_api/controllers/locations.js:134-153 | 204 with no body iff the id is non-empty and present; otherwise the 404 page and no change; for a non-empty id the collection afterwards is the old one without that id |
| Locations.DeleteOne | app_api/controllers/locations.js:134-153 | the answer and the new collection are those of `Locations.DeleteEffect`; validity is kept |
| Locations.ReadAfterDelete | app_api/controllers/locations.js:142 | a deleted id reads as the 404 page |
| Routes.Match | app_api/routes/index.js:15-35 | a path matches a pattern iff the lengths agree, literals are equal and every parameter segment is non-empty; each parameter is bound to its segment and nothing else is bound |
| Routes.FitsStep | app_api/routes/index.js:15-35 | a matching leading segment followed by a matching rest matches the whole path |
| Routes.BindsStep | app_api/routes/index.js:15-35 | binding one more leading segment keeps every parameter bound to its own segment |
| Routes.KeysStep | app_api/routes/index.js:15-35 | binding one more leading segment binds no name outside the pattern |
| Routes.Lookup | app_api/routes/index.js:15-44 | the first row taking the request is found, with its bindings, and no earlier row takes it; none is found iff no row takes it |
| Routes.Dispatch | app_api/routes/index.js:14-44 | the catch-all answers iff no row takes the request; a refusal happens only without a valid token |
| Routes.GuardedRows | app_api/routes/index.js:26-35 | a row is guarded iff its handler creates, updates or deletes a review |
| Routes.SignaturesDistinct | app_api/routes/index.js:15-39 | the rows differ in verb, segment count or first literal |
| Routes.RowsDisjoint | app_api/routes/index.js:15-39 | no request is taken by two rows |
| Routes.DispatchUsesRow | app_api/routes/index.js:15-39 | whichever row takes a request decides its dispatch: a guarded row without a valid token is refused, otherwise the row's handler runs with the path's bindings |
| Routes.GuardedNeedsToken | app_api/routes/index.js:29-35 | a review write handler runs only with a valid token |
| Routes.ListAndCreateRoutes | app_api/routes/index.js:15-18 | GET and POST `/locations` reach the list and create handlers, with or without a token |
| Routes.LocationPathMatches | app_api/routes/index.js:21 | `/locations/:locationid` binds exactly the location id |
| Routes.LocationReadRoute | app_api/routes/index.js:22 | GET `/locations/:locationid` reaches read, bound to the id, without a guard |
| Routes.LocationWriteRoutes | app_api/routes/index.js:23-24 | PUT and DELETE `/locations/:locationid` reach update and delete, bound to the id, without a guard |
| Routes.ReviewCreateRoute | app_api/routes/index.js:27-29 | POST `/locations/:locationid/reviews` reaches review create with a valid token and is refused without one |
| Routes.ReviewPathMatches | app_api/routes/index.js:32 | `/locations/:locationid/reviews/:reviewid` binds exactly the two ids |
| Routes.ReviewReadRoute | app_api/routes/index.js:33 | GET on one review reaches read without a guard, with both ids bound |
| Routes.GuardedReviewRow | app_api/routes/index.js:31-35 | a guarded row on the review path decides the dispatch of every matching path for its verb: its handler with the bindings given a valid token, a refusal otherwise |
| Routes.ReviewUpdateRoute | app_api/routes/index.js:34 | PUT on one review reaches update only with a valid token, with both ids bound, and is refused without one |
| Routes.ReviewDeleteRoute | app_api/routes/index.js:35 | DELETE on one review reaches delete only with a valid token, with both ids bound, and is refused without one |
| Routes.AuthenticationRoutes | app_api/routes/index.js:38-39 | POST `/register` and `/login` reach their handlers without a guard |
| Routes.BindsOne | app_api/routes/index.js:21 | a pattern with one parameter binds exactly that parameter to its segment |
| Routes.BindsTwo | app_api/routes/index.js:32 | a pattern with two distinct parameters binds exactly those two |
| Routes.RowVerbs | app_api/routes/index.js:15-39 | every row is for GET, POST, PUT or DELETE |
| Routes.OtherVerbsNoRoute | app_api/routes/index.js:14-44 | PATCH and OPTIONS always fall through to the catch-all |
| Routes.HeadLookupIsGet | app_api/routes/index.js:15-35 | over rows without a HEAD verb, a HEAD request finds the same row and bindings as a GET request |
| Routes.HeadIsGet | app_api/routes/index.js:15-35 | a HEAD request is dispatched exactly like the GET request for the same path |
| Api.ReadersLeaveStore | app_api/routes/index.js:14-39 | the reading and authentication handlers leave the collection unchanged |
| Api.Serve | app_api/routes/index.js:14-44 | the catch-all answers 404 "Endpoint not found" and a refused token 401, both with no change; a dispatched handler gives exactly the answer and collection of its effect function (`Api.HandlerEffect`); reads and authentication change nothing; validity is kept except through an invalid location patch |
| Api.ReviewsGoneWithLocation | app_api/controllers/locations.js:142 | after a location is deleted, any of its reviews reads as 404 "Location not found" |
| Api.EmptyIdFindsNoLocation | app_api/controllers/reviews.js:63-70 | in a store whose ids are all non-empty, a review read with an empty location id answers 404 "Location not found" |
| Api.NoTokenRewritesReviews | app_api/controllers/locations.js:182-193 | a PUT on an existing location that supplies reviews and a rating answers 200 and stores exactly those reviews and that rating, whatever their mean |
| Api.NoTokenNoReviewWrites | app_api/routes/index.js:29-35 | without a valid token, no request reaches a review write handler |

## Left out

- The authentication controller (`app_api/controllers/authentication.js`), passport, password hashing and token signing are left out. `/register` and `/login` answer with a response passed in from the environment, and the token check is a boolean.
- Mongoose internals are left out: casting, ObjectId parsing and CastErrors, and driver failures other than the rating save and the aggregation. An id that names no document is just absent from the map, so the answers a malformed id draws through its CastError are not modelled: 500 in the location handlers and 400 in the review handlers (`app_api/controllers/reviews.js:57-60`, `85-88`, `119-122`, `150-153`).
- The geodesy of `$geoNear` is left out: which documents lie within the radius, and their sort by distance. The aggregation is a parameter.
- `Locations.Shape`: the distance is a real number of kilometres, not the `toFixed(2)` text with " km" appended.
- `Reviews.Recompute`: the mean is stored exactly; the `toFixed(2)` rounding and the string-to-number cast are not modelled.
- `Reviews.CastRating`: the cast of rating text is the `castNumber` parameter; which texts it accepts is not modelled. Body values other than numbers and text (arrays, objects, booleans) are not modelled.
- `Locations.GeoQuery`: `parseFloat` is abstract, so NaN radii and coordinates are not modelled. Query values are text only: a repeated key such as `?lng=1&lng=2`, which the query parser turns into a truthy array that `parseFloat` reads through its text form, is not modelled.
- `Locations.Build`: two more 500 answers of `locationsCreate` (`app_api/controllers/locations.js:127-130`) are not modelled. The `2dsphere` index on `coords` (`app_api/models/locations.js:42`), which `$geoNear` needs, makes the database refuse a point outside [-180, 180] × [-90, 90] and a malformed GeoJSON point. And form text for `closed1` or `closed2` other than `true`, `false`, `yes`, `no`, `1` and `0` fails the Boolean cast; the model takes these fields as `Option<bool>`.
- `Locations.UpdateEffect`: the same index check makes a PUT that stores an out-of-range or malformed point answer 500 (`app_api/controllers/locations.js:195-198`); the model answers 200.
- `Locations.Build`: `facilities` is text. A non-string `facilities`, which makes `split` throw and answer 500, is not modelled. Nor is a NaN coordinate that the cast would refuse.
- `Routes.Match`: Express's case-insensitive matching, optional trailing slash and percent-decoding of parameters are not modelled.
- `Api.Serve`: a HEAD request runs the GET handler, and its modelled response keeps the body, which the HTTP server drops.
- `Api.Serve`: the 401 body is the application error page (`app.js:45-51`), modelled as one constructor. The page's contents are not modelled.
- `app.js` wiring is left out: static files, body parsers, the server-side site under `app_server` and its own 404 handler.
- Concurrency is left out. Each handler runs as one atomic step, with no interleaving of its two saves and no race between requests.
- Console logging is left out.
- A review's `createdOn` is whatever clock value the caller supplies.
