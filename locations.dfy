/**
 * The location handlers of `app_api/controllers/locations.js`: the proximity
 * listing, create, read, update and delete over the collection, and the
 * error page the read, update and delete handlers draw.
 */
module Locations {
  import opened Js
  import opened Schema
  import opened Http
  import opened Store

  /** `meterToKilometer`. */
  function MeterToKilometer(meters: real): (km: real)
    ensures km * 1000.0 == meters
  {
    meters / 1000.0
  }

  const NotFoundTitle: string := "404, page not found"
  const NotFoundContent: string :=
    "Oh dear. Looks like the location you are looking for does not exist. Sorry."
  const ErrorTitleSuffix: string := ", something's gone wrong"
  const ErrorContent: string := "Something, somewhere, has gone just a little bit wrong."
  const InternalErrorMessage: string := "Internal server error"

  /** `showError`: the status with the generic-text page for it. */
  function ShowError(status: nat): (res: Response)
    ensures res.status == status && res.body.ErrorPage?
    ensures status == NotFound ==> res.body == ErrorPage(NotFoundTitle, NotFoundContent)
    ensures status != NotFound ==> res.body == ErrorPage(Decimal(status) + ErrorTitleSuffix, ErrorContent)
  {
    var title := if status == NotFound then NotFoundTitle else Decimal(status) + ErrorTitleSuffix;
    var content := if status == NotFound then NotFoundContent else ErrorContent;
    Response(status, ErrorPage(title, content))
  }

  /** Different statuses get different page titles. */
  lemma ShowErrorTitlesDistinct(a: nat, b: nat)
    requires a != b
    ensures ShowError(a).body.title != ShowError(b).body.title
  {
    var ta, tb := ShowError(a).body.title, ShowError(b).body.title;
    if a != NotFound && b != NotFound && ta == tb {
      var n := |ErrorTitleSuffix|;
      assert ta[..|ta| - n] == Decimal(a);
      assert tb[..|tb| - n] == Decimal(b);
      DecimalInjective(a, b);
    }
  }

  /** The page for an internal error is titled "500" followed by the generic suffix. */
  lemma ShowErrorInternal()
    ensures ShowError(InternalError).body.title == "500" + ErrorTitleSuffix
  {
    assert Decimal(50) == Decimal(5) + [Digit(0)];
    assert Decimal(500) == Decimal(50) + [Digit(0)];
  }

  // ---------------------------------------------------------------------
  // Listing by distance

  const DefaultMaxDistance: real := 300000.0
  const ListRequiredMessage: string := "Longitude and latitude query parameters are required"

  /** The query string `lng`, `lat` and `maxDistance`, as raw text. */
  datatype Query = Query(lng: Option<string>, lat: Option<string>, maxDistance: Option<string>)

  /** The `$geoNear` stage: the point, the radius in metres and the fixed options. */
  datatype GeoNear = GeoNear(
    near: Coords,
    maxDistance: real,
    key: string,
    spherical: bool,
    distanceField: string)

  /** One aggregation result: a document, its id and `distance.calculated` in metres. */
  datatype GeoResult = GeoResult(id: string, doc: Location, calculated: real)

  predicate HasPoint(q: Query) {
    TruthyText(q.lng) && TruthyText(q.lat)
  }

  /** The `$geoNear` stage for a query that names a point; `parseFloat` is given. */
  function GeoQuery(q: Query, parseFloat: string -> real): (g: GeoNear)
    requires HasPoint(q)
    ensures g.near == Coords(PointType, Some([parseFloat(q.lng.value), parseFloat(q.lat.value)]))
    ensures q.maxDistance.None? ==> g.maxDistance == DefaultMaxDistance
    ensures q.maxDistance.Some? ==> g.maxDistance == parseFloat(q.maxDistance.value)
    ensures g.key == "coords" && g.spherical && g.distanceField == "distance.calculated"
  {
    var radius := if q.maxDistance.Some? then parseFloat(q.maxDistance.value) else DefaultMaxDistance;
    GeoNear(Coords(PointType, Some([parseFloat(q.lng.value), parseFloat(q.lat.value)])),
            radius, "coords", true, "distance.calculated")
  }

  /** The shape of one listed location. */
  function Entry(r: GeoResult): ListEntry {
    ListEntry(r.id, r.doc.name, r.doc.address, r.doc.facilities, MeterToKilometer(r.calculated))
  }

  /** `results.map(…)`: one entry per result, in the same order. */
  function Shape(results: seq<GeoResult>): (out: seq<ListEntry>)
    ensures |out| == |results|
    ensures forall i :: 0 <= i < |results| ==>
              && out[i].id == results[i].id
              && out[i].name == results[i].doc.name
              && out[i].address == results[i].doc.address
              && out[i].facilities == results[i].doc.facilities
              && out[i].distanceKm * 1000.0 == results[i].calculated
  {
    if results == [] then [] else [Entry(results[0])] + Shape(results[1..])
  }

  /** Shaping distributes over concatenation: listing keeps the order of the results. */
  lemma {:induction false} ShapeAppend(a: seq<GeoResult>, b: seq<GeoResult>)
    ensures Shape(a + b) == Shape(a) + Shape(b)
  {
    if a == [] {
      assert a + b == b;
    } else {
      assert (a + b)[0] == a[0];
      assert (a + b)[1..] == a[1..] + b;
      ShapeAppend(a[1..], b);
    }
  }

  /**
   * `locationsListByDistance`; `aggregate` stands for the store's aggregation,
   * None when it fails.
   */
  function ListByDistance(q: Query, parseFloat: string -> real,
                          aggregate: GeoNear -> Option<seq<GeoResult>>): (res: Response)
    ensures !HasPoint(q) ==> res == Response(BadRequest, Message(ListRequiredMessage))
    ensures HasPoint(q) && aggregate(GeoQuery(q, parseFloat)).None? ==>
              res == Response(InternalError, Message(InternalErrorMessage))
    ensures HasPoint(q) && aggregate(GeoQuery(q, parseFloat)).Some? ==>
              res == Response(Ok, LocationList(Shape(aggregate(GeoQuery(q, parseFloat)).value)))
  {
    if !HasPoint(q) then Response(BadRequest, Message(ListRequiredMessage))
    else
      match aggregate(GeoQuery(q, parseFloat))
      case None => Response(InternalError, Message(InternalErrorMessage))
      case Some(results) => Response(Ok, LocationList(Shape(results)))
  }

  // ---------------------------------------------------------------------
  // Create

  const CreateRequiredMessage: string := "Name, longitude, latitude, and facilities are required"

  function ParseBodyNumber(x: BodyNumber, parseFloat: string -> real): real {
    match x
    case JsonNumber(v) => v
    case FormText(t) => parseFloat(t)
  }

  /** The `req.body` fields `locationsCreate` reads. */
  datatype LocationFields = LocationFields(
    name: Option<string>,
    address: Option<string>,
    facilities: Option<string>,
    lng: Option<BodyNumber>,
    lat: Option<BodyNumber>,
    days1: Option<string>, opening1: Option<string>, closing1: Option<string>, closed1: Option<bool>,
    days2: Option<string>, opening2: Option<string>, closing2: Option<string>, closed2: Option<bool>)

  predicate HasRequired(f: LocationFields) {
    TruthyText(f.name) && TruthyBodyNumber(f.lng) && TruthyBodyNumber(f.lat) && TruthyText(f.facilities)
  }

  /** Either the document to insert or the response that refuses the request. */
  datatype Candidate = Insert(location: Location) | Refuse(response: Response)

  /** What `locationsCreate` hands to the store, or why it does not get that far. */
  function Build(f: LocationFields, parseFloat: string -> real): (c: Candidate)
    ensures !HasRequired(f) <==> c == Refuse(Response(BadRequest, Message(CreateRequiredMessage)))
    ensures HasRequired(f) ==>
              (c.Refuse? <==>
                 NewOpeningTime(f.days1, f.opening1, f.closing1, f.closed1).None? ||
                 NewOpeningTime(f.days2, f.opening2, f.closing2, f.closed2).None?)
    ensures c.Refuse? && HasRequired(f) ==> c.response == Response(InternalError, Message(InternalErrorMessage))
    ensures c.Insert? ==>
              var l := c.location;
              && ValidLocation(l)
              && l.name == f.name.value && l.address == f.address
              && l.facilities == Split(f.facilities.value)
              && l.coords == Coords(PointType, Some([ParseBodyNumber(f.lng.value, parseFloat),
                                                     ParseBodyNumber(f.lat.value, parseFloat)]))
              && l.openingTimes == [OpeningTime(f.days1.value, f.opening1, f.closing1, f.closed1.value),
                                    OpeningTime(f.days2.value, f.opening2, f.closing2, f.closed2.value)]
              && l.rating == DefaultRating && l.reviews == []
  {
    if !HasRequired(f) then Refuse(Response(BadRequest, Message(CreateRequiredMessage)))
    else
      var first := NewOpeningTime(f.days1, f.opening1, f.closing1, f.closed1);
      var second := NewOpeningTime(f.days2, f.opening2, f.closing2, f.closed2);
      if first.None? || second.None? then Refuse(Response(InternalError, Message(InternalErrorMessage)))
      else
        var coords := Coords(PointType, Some([ParseBodyNumber(f.lng.value, parseFloat),
                                              ParseBodyNumber(f.lat.value, parseFloat)]));
        Insert(NewLocation(f.name.value, f.address, Split(f.facilities.value), coords,
                           [first.value, second.value]))
  }

  /** The stored facilities re-join to the submitted text, one piece per comma plus one. */
  lemma BuildFacilities(f: LocationFields, parseFloat: string -> real)
    requires Build(f, parseFloat).Insert?
    ensures Join(Build(f, parseFloat).location.facilities) == f.facilities.value
    ensures |Build(f, parseFloat).location.facilities| == CountCommas(f.facilities.value) + 1
    ensures forall i :: 0 <= i < |Build(f, parseFloat).location.facilities| ==>
              CommaFree(Build(f, parseFloat).location.facilities[i])
  {
    JoinSplit(f.facilities.value);
    SplitCount(f.facilities.value);
    SplitPiecesCommaFree(f.facilities.value);
  }

  /** What `locationsCreate` answers, and the collection afterwards. */
  function CreateEffect(m: map<string, Location>, f: LocationFields, parseFloat: string -> real,
                        newId: string): (e: (Response, map<string, Location>))
    ensures e.0.status == Created <==> Build(f, parseFloat).Insert?
    ensures e.0.status != Created ==> e == (Build(f, parseFloat).response, m)
    ensures e.0.status == Created ==>
              && e.1 == m[newId := Build(f, parseFloat).location]
              && e.0.body == LocationDoc(newId, Build(f, parseFloat).location)
              && (newId != "" ==> ReadOne(e.1, newId) == Response(Ok, e.0.body))
  {
    match Build(f, parseFloat)
    case Refuse(r) => (r, m)
    case Insert(l) => (Response(Created, LocationDoc(newId, l)), m[newId := l])
  }

  /** `locationsCreate`; `newId` is the id the store generates, fresh and non-empty. */
  method Create(db: LocationStore, f: LocationFields, parseFloat: string -> real,
                newId: string) returns (res: Response)
    requires db.Valid()
    requires newId != "" && newId !in db.locations
    modifies db
    ensures db.Valid()
    ensures old(db.AllValid()) ==> db.AllValid()
    ensures (res, db.locations) == CreateEffect(old(db.locations), f, parseFloat, newId)
  {
    var c := Build(f, parseFloat);
    if c.Refuse? {
      return c.response;
    }
    if db.AllValid() {
      StoreKeepsValid(db.locations, newId, c.location);
    }
    db.locations := db.locations[newId := c.location];
    res := Response(Created, LocationDoc(newId, c.location));
  }

  // ---------------------------------------------------------------------
  // Read, update, delete

  /** `locationsReadOne`. */
  function ReadOne(locations: map<string, Location>, id: string): (res: Response)
    ensures res.status == Ok <==> id != "" && id in locations
    ensures res.status == Ok ==> res.body == LocationDoc(id, locations[id])
    ensures res.status != Ok ==> res == ShowError(NotFound)
  {
    if id == "" || id !in locations then ShowError(NotFound)
    else Response(Ok, LocationDoc(id, locations[id]))
  }

  /** The top-level fields of `req.body` that `findByIdAndUpdate` sets. */
  datatype LocationPatch = LocationPatch(
    name: Option<string>,
    address: Option<string>,
    rating: Option<real>,
    facilities: Option<seq<string>>,
    coords: Option<Coords>,
    openingTimes: Option<seq<OpeningTime>>,
    reviews: Option<seq<Review>>)

  function Pick<T>(o: Option<T>, keep: T): T {
    if o.Some? then o.value else keep
  }

  /** The document after `$set` of every supplied field; no validator runs. */
  function ApplyPatch(l: Location, p: LocationPatch): Location {
    Location(
      Pick(p.name, l.name),
      if p.address.Some? then p.address else l.address,
      Pick(p.rating, l.rating),
      Pick(p.facilities, l.facilities),
      Pick(p.coords, l.coords),
      Pick(p.openingTimes, l.openingTimes),
      Pick(p.reviews, l.reviews))
  }

  /** Every supplied field would pass the schema. */
  predicate PatchValid(p: LocationPatch) {
    && (p.name.Some? ==> p.name.value != "")
    && (p.rating.Some? ==> RatingInRange(p.rating.value))
    && (p.coords.Some? ==> ValidCoords(p.coords.value))
    && (p.openingTimes.Some? ==>
          forall i :: 0 <= i < |p.openingTimes.value| ==> ValidOpeningTime(p.openingTimes.value[i]))
    && (p.reviews.Some? ==> AllReviewsValid(p.reviews.value))
  }

  /** A patch sets exactly the fields it supplies, and applying it twice changes nothing more. */
  lemma PatchSetsSuppliedFields(l: Location, p: LocationPatch)
    ensures var r := ApplyPatch(l, p);
              && (p.name.Some? ==> r.name == p.name.value) && (p.name.None? ==> r.name == l.name)
              && (p.address.Some? ==> r.address == p.address) && (p.address.None? ==> r.address == l.address)
              && (p.rating.Some? ==> r.rating == p.rating.value) && (p.rating.None? ==> r.rating == l.rating)
              && (p.facilities.Some? ==> r.facilities == p.facilities.value)
              && (p.facilities.None? ==> r.facilities == l.facilities)
              && (p.coords.Some? ==> r.coords == p.coords.value) && (p.coords.None? ==> r.coords == l.coords)
              && (p.openingTimes.Some? ==> r.openingTimes == p.openingTimes.value)
              && (p.openingTimes.None? ==> r.openingTimes == l.openingTimes)
              && (p.reviews.Some? ==> r.reviews == p.reviews.value) && (p.reviews.None? ==> r.reviews == l.reviews)
    ensures ApplyPatch(ApplyPatch(l, p), p) == ApplyPatch(l, p)
    ensures p == LocationPatch(None, None, None, None, None, None, None) ==> ApplyPatch(l, p) == l
  {
  }

  /** A patch whose fields pass the schema keeps a valid document valid. */
  lemma PatchKeepsValid(l: Location, p: LocationPatch)
    requires ValidLocation(l) && PatchValid(p)
    ensures ValidLocation(ApplyPatch(l, p))
  {
  }

  /** Without validators the update stores what it is given: an out-of-range rating sticks. */
  lemma PatchSkipsValidation(l: Location)
    requires ValidLocation(l)
    ensures !ValidLocation(ApplyPatch(l, LocationPatch(None, None, Some(7.0), None, None, None, None)))
  {
  }

  /** What `locationsUpdateOne` answers, and the collection afterwards. */
  function UpdateEffect(m: map<string, Location>, id: string, p: LocationPatch): (e: (Response, map<string, Location>))
    ensures e.0.status == Ok <==> id != "" && id in m
    ensures e.0.status != Ok ==> e == (ShowError(NotFound), m)
    ensures e.0.status == Ok ==>
              && e.1 == m[id := ApplyPatch(m[id], p)]
              && e.0 == Response(Ok, LocationDoc(id, e.1[id]))
              && ReadOne(e.1, id) == e.0
  {
    if id == "" || id !in m then (ShowError(NotFound), m)
    else (Response(Ok, LocationDoc(id, ApplyPatch(m[id], p))), m[id := ApplyPatch(m[id], p)])
  }

  /** `locationsUpdateOne`. */
  method UpdateOne(db: LocationStore, id: string, p: LocationPatch) returns (res: Response)
    requires db.Valid()
    modifies db
    ensures db.Valid()
    ensures old(db.AllValid()) && PatchValid(p) ==> db.AllValid()
    ensures (res, db.locations) == UpdateEffect(old(db.locations), id, p)
  {
    if id == "" || id !in db.locations {
      return ShowError(NotFound);
    }
    var updated := ApplyPatch(db.locations[id], p);
    if db.AllValid() && PatchValid(p) {
      PatchKeepsValid(db.locations[id], p);
      StoreKeepsValid(db.locations, id, updated);
    }
    db.locations := db.locations[id := updated];
    res := Response(Ok, LocationDoc(id, updated));
  }

  /** What `locationsDeleteOne` answers, and the collection afterwards. */
  function DeleteEffect(m: map<string, Location>, id: string): (e: (Response, map<string, Location>))
    ensures e.0.status == NoContentStatus <==> id != "" && id in m
    ensures e.0.status != NoContentStatus ==> e == (ShowError(NotFound), m)
    ensures e.0.status == NoContentStatus ==> e.0.body == NoBody
    ensures id != "" ==> e.1 == m - {id}
  {
    if id == "" || id !in m then (ShowError(NotFound), m)
    else (Response(NoContentStatus, NoBody), m - {id})
  }

  /** `locationsDeleteOne`: the document goes, and its embedded reviews with it. */
  method DeleteOne(db: LocationStore, id: string) returns (res: Response)
    requires db.Valid()
    modifies db
    ensures db.Valid()
    ensures old(db.AllValid()) ==> db.AllValid()
    ensures (res, db.locations) == DeleteEffect(old(db.locations), id)
  {
    if id == "" || id !in db.locations {
      return ShowError(NotFound);
    }
    db.locations := db.locations - {id};
    res := Response(NoContentStatus, NoBody);
  }

  /** After a delete, reading the same id finds nothing. */
  lemma ReadAfterDelete(m: map<string, Location>, id: string)
    ensures ReadOne(m - {id}, id) == ShowError(NotFound)
  {
  }
}
