/**
 * The document schema of `app_api/models/locations.js`: a Location document
 * embeds its opening times and its reviews. Validation is what the ODM
 * checks when a document is written: `required` on a string rejects an
 * absent or empty value, `required` on a boolean or a number rejects only an
 * absent one, and `min`/`max` bound a number.
 */
module Schema {
  import opened Js

  const MinRating: real := 0.0
  const MaxRating: real := 5.0
  /** The `default: 0` of a location's rating. */
  const DefaultRating: real := 0.0
  /** The only value the enum of `coords.type` admits. */
  const PointType: string := "Point"

  /** A timestamp in milliseconds, as `Date.now()` gives it. */
  type Time = int

  /** A review subdocument with its generated id. */
  datatype Review = Review(
    id: string,
    author: string,
    rating: real,
    reviewText: string,
    createdOn: Time)

  /** An opening-time subdocument. */
  datatype OpeningTime = OpeningTime(
    days: string,
    opening: Option<string>,
    closing: Option<string>,
    closed: bool)

  /** The GeoJSON point `{ type, coordinates }`; coordinates are `[lng, lat]`. */
  datatype Coords = Coords(kind: string, coordinates: Option<seq<real>>)

  /** A location document (its id is the key under which the store holds it). */
  datatype Location = Location(
    name: string,
    address: Option<string>,
    rating: real,
    facilities: seq<string>,
    coords: Coords,
    openingTimes: seq<OpeningTime>,
    reviews: seq<Review>)

  predicate RatingInRange(x: real) {
    MinRating <= x <= MaxRating
  }

  predicate ValidReview(r: Review) {
    r.author != "" && RatingInRange(r.rating) && r.reviewText != ""
  }

  predicate ValidOpeningTime(t: OpeningTime) {
    t.days != ""
  }

  predicate ValidCoords(c: Coords) {
    c.kind == PointType && c.coordinates.Some?
  }

  predicate AllReviewsValid(rs: seq<Review>) {
    forall i :: 0 <= i < |rs| ==> ValidReview(rs[i])
  }

  predicate ValidLocation(l: Location) {
    && l.name != ""
    && RatingInRange(l.rating)
    && ValidCoords(l.coords)
    && (forall i :: 0 <= i < |l.openingTimes| ==> ValidOpeningTime(l.openingTimes[i]))
    && AllReviewsValid(l.reviews)
  }

  /**
   * The review subdocument the schema builds from the supplied fields, with
   * `createdOn` defaulted to `now`; None when the schema rejects it.
   */
  function NewReview(id: string, author: Option<string>, rating: Option<real>,
                     reviewText: Option<string>, now: Time): (r: Option<Review>)
    ensures r.Some? <==>
              TruthyText(author) && rating.Some? && RatingInRange(rating.value) && TruthyText(reviewText)
    ensures r.Some? ==> ValidReview(r.value)
    ensures r.Some? ==> r.value == Review(id, author.value, rating.value, reviewText.value, now)
  {
    if TruthyText(author) && rating.Some? && RatingInRange(rating.value) && TruthyText(reviewText)
    then Some(Review(id, author.value, rating.value, reviewText.value, now))
    else None
  }

  /** The opening-time subdocument built from the supplied fields; None when rejected. */
  function NewOpeningTime(days: Option<string>, opening: Option<string>,
                          closing: Option<string>, closed: Option<bool>): (t: Option<OpeningTime>)
    ensures t.Some? <==> TruthyText(days) && closed.Some?
    ensures t.Some? ==> ValidOpeningTime(t.value)
    ensures t.Some? ==> t.value == OpeningTime(days.value, opening, closing, closed.value)
  {
    if TruthyText(days) && closed.Some?
    then Some(OpeningTime(days.value, opening, closing, closed.value))
    else None
  }

  /** A new location document: rating defaults to 0 and there are no reviews yet. */
  function NewLocation(name: string, address: Option<string>, facilities: seq<string>,
                       coords: Coords, openingTimes: seq<OpeningTime>): (l: Location)
    ensures l.rating == DefaultRating && l.reviews == []
    ensures l.name == name && l.address == address && l.facilities == facilities
    ensures l.coords == coords && l.openingTimes == openingTimes
    ensures name != "" && ValidCoords(coords) &&
            (forall i :: 0 <= i < |openingTimes| ==> ValidOpeningTime(openingTimes[i]))
            ==> ValidLocation(l)
  {
    Location(name, address, DefaultRating, facilities, coords, openingTimes, [])
  }
}
