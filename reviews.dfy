/**
 * The review subresource of `app_api/controllers/reviews.js`. Every handler
 * loads one location, changes its embedded review list, saves it and then
 * recomputes the location's rating from the saved list.
 */
module Reviews {
  import opened Js
  import opened Schema
  import opened Http
  import opened Store

  /**
   * The `req.body` fields a review handler reads. A JSON body carries the
   * rating as a number, a form-encoded body as text.
   */
  datatype ReviewFields = ReviewFields(
    author: Option<string>,
    rating: Option<BodyNumber>,
    reviewText: Option<string>)

  /**
   * The ODM's cast of a body value to the schema's `Number`: a JSON number
   * is kept, empty text gives no value, and other text goes through
   * `castNumber`, which answers None for text that is not a number.
   */
  function CastRating(x: Option<BodyNumber>, castNumber: string -> Option<real>): Option<real> {
    match x
    case None => None
    case Some(JsonNumber(v)) => Some(v)
    case Some(FormText(t)) => if t == "" then None else castNumber(t)
  }

  predicate RatingsInRange(rs: seq<Review>) {
    forall r :: r in rs ==> RatingInRange(r.rating)
  }

  /** The sum of the ratings, folded from the first review to the last as `reduce` does. */
  function Sum(rs: seq<Review>): real {
    if rs == [] then 0.0 else Sum(rs[..|rs| - 1]) + rs[|rs| - 1].rating
  }

  /** The aggregate rating: the mean of the ratings, or 0 for no reviews. */
  function Mean(rs: seq<Review>): (m: real)
    ensures |rs| == 0 ==> m == 0.0
    ensures |rs| > 0 ==> m * (|rs| as real) == Sum(rs)
  {
    if |rs| > 0 then Sum(rs) / (|rs| as real) else 0.0
  }

  lemma {:induction false} SumBounds(rs: seq<Review>)
    requires RatingsInRange(rs)
    ensures 0.0 <= Sum(rs) <= MaxRating * (|rs| as real)
  {
    if rs != [] {
      var init := rs[..|rs| - 1];
      assert forall r :: r in init ==> r in rs;
      SumBounds(init);
      assert rs[|rs| - 1] in rs;
    }
  }

  /** Ratings within the schema's range have a mean within it too. */
  lemma MeanInRange(rs: seq<Review>)
    requires RatingsInRange(rs)
    ensures RatingInRange(Mean(rs))
  {
    if |rs| > 0 {
      SumBounds(rs);
    }
  }

  /** Two reviews rated 4 and 5 give the rating 4.5. */
  lemma MeanOfFourAndFive(a: Review, b: Review)
    requires a.rating == 4.0 && b.rating == 5.0
    ensures Mean([a, b]) == 4.5
  {
    assert [a, b][..1] == [a];
    assert [a][..0] == [];
    assert Sum([a]) == 4.0;
    assert Sum([a, b]) == 9.0;
  }

  /**
   * The location after `updateAverageRating`: the mean of its reviews is
   * written only when the save goes through. The save validates the whole
   * document it loaded, so it needs the store to succeed (`saveOk`), every
   * embedded review to pass the schema and the mean to pass the rating's
   * min/max validator. A failed save is logged and swallowed, leaving the
   * old rating.
   */
  function Recompute(loc: Location, saveOk: bool): (r: Location)
    ensures r == loc.(rating := r.rating)
    ensures r.rating == Mean(loc.reviews) || r.rating == loc.rating
    ensures !saveOk || !AllReviewsValid(loc.reviews) ==> r == loc
  {
    var m := Mean(loc.reviews);
    if saveOk && AllReviewsValid(loc.reviews) && RatingInRange(m) then loc.(rating := m) else loc
  }

  /** A save that goes through always stores the mean, and validity is kept. */
  lemma RecomputedRating(loc: Location, saveOk: bool)
    ensures Recompute(loc, saveOk).rating ==
              if saveOk && AllReviewsValid(loc.reviews) then Mean(loc.reviews) else loc.rating
    ensures ValidLocation(loc) ==> ValidLocation(Recompute(loc, saveOk))
  {
    if AllReviewsValid(loc.reviews) {
      ValidReviewsInRange(loc.reviews);
      MeanInRange(loc.reviews);
    }
  }

  lemma ValidReviewsInRange(rs: seq<Review>)
    requires AllReviewsValid(rs)
    ensures RatingsInRange(rs)
  {
    forall r | r in rs ensures RatingInRange(r.rating) {
      var i :| 0 <= i < |rs| && rs[i] == r;
    }
  }

  /**
   * The truthy-or-keep update of a review's three fields. A truthy rating is
   * cast when it is assigned; when the cast fails the save refuses the
   * document, and there is no merged review.
   */
  function Merge(r: Review, f: ReviewFields, castNumber: string -> Option<real>): (m: Option<Review>)
    ensures m.None? <==> TruthyBodyNumber(f.rating) && CastRating(f.rating, castNumber).None?
    ensures m.Some? ==> m.value.id == r.id && m.value.createdOn == r.createdOn
    ensures m.Some? && TruthyText(f.author) ==> m.value.author == f.author.value
    ensures m.Some? && !TruthyText(f.author) ==> m.value.author == r.author
    ensures m.Some? && TruthyBodyNumber(f.rating) ==> m.value.rating == CastRating(f.rating, castNumber).value
    ensures m.Some? && !TruthyBodyNumber(f.rating) ==> m.value.rating == r.rating
    ensures m.Some? && TruthyText(f.reviewText) ==> m.value.reviewText == f.reviewText.value
    ensures m.Some? && !TruthyText(f.reviewText) ==> m.value.reviewText == r.reviewText
  {
    var rating := if TruthyBodyNumber(f.rating) then CastRating(f.rating, castNumber) else Some(r.rating);
    if rating.None? then None
    else Some(r.(author := OrText(f.author, r.author),
                 rating := rating.value,
                 reviewText := OrText(f.reviewText, r.reviewText)))
  }

  /** Merging the same fields again changes nothing more. */
  lemma MergeIdempotent(r: Review, f: ReviewFields, castNumber: string -> Option<real>)
    ensures Merge(r, f, castNumber).Some? ==>
              Merge(Merge(r, f, castNumber).value, f, castNumber) == Merge(r, f, castNumber)
  {
  }

  /** A JSON rating of 0 is falsy: the update keeps the old rating. */
  lemma MergeCannotSetZero(r: Review, f: ReviewFields, castNumber: string -> Option<real>)
    requires f.rating == Some(JsonNumber(0.0))
    ensures Merge(r, f, castNumber).Some? && Merge(r, f, castNumber).value.rating == r.rating
  {
  }

  /** Form-encoded text "0" is truthy: the update does set the rating to 0. */
  lemma MergeFormZero(r: Review, f: ReviewFields, castNumber: string -> Option<real>)
    requires f.rating == Some(FormText("0")) && castNumber("0") == Some(0.0)
    ensures Merge(r, f, castNumber).Some? && Merge(r, f, castNumber).value.rating == 0.0
  {
  }

  /** Supplying only a rating leaves author and text unchanged. */
  lemma MergeOnlyRating(r: Review, x: BodyNumber, castNumber: string -> Option<real>)
    ensures var m := Merge(r, ReviewFields(None, Some(x), None), castNumber);
            m.Some? ==> m.value.author == r.author && m.value.reviewText == r.reviewText
  {
  }

  /** `reviews.id(id)`: the position of the first review with this id. */
  function FindReview(rs: seq<Review>, id: string): (k: Option<nat>)
    ensures k.Some? ==> k.value < |rs| && rs[k.value].id == id
    ensures k.Some? ==> forall j :: 0 <= j < k.value ==> rs[j].id != id
    ensures k.None? ==> forall j :: 0 <= j < |rs| ==> rs[j].id != id
  {
    if rs == [] then None
    else if rs[0].id == id then Some(0)
    else
      match FindReview(rs[1..], id)
      case None => None
      case Some(j) => Some(j + 1)
  }

  /** `reviews.pull(id)`: every review with this id removed, the others kept in order. */
  function Pull(rs: seq<Review>, id: string): (out: seq<Review>)
    ensures |out| <= |rs|
  {
    if rs == [] then []
    else (if rs[0].id == id then [] else [rs[0]]) + Pull(rs[1..], id)
  }

  /** The pull keeps only reviews of the list, and none with the id. */
  lemma {:induction false} PullSubset(rs: seq<Review>, id: string, r: Review)
    requires r in Pull(rs, id)
    ensures r in rs && r.id != id
  {
    if rs[0].id == id || r != rs[0] {
      assert r in Pull(rs[1..], id);
      PullSubset(rs[1..], id, r);
    }
  }

  /** Pulling from schema-valid reviews leaves schema-valid reviews. */
  lemma PullKeepsValid(rs: seq<Review>, id: string)
    requires AllReviewsValid(rs)
    ensures AllReviewsValid(Pull(rs, id))
  {
    var out := Pull(rs, id);
    forall i | 0 <= i < |out| ensures ValidReview(out[i]) {
      PullSubset(rs, id, out[i]);
      var j :| 0 <= j < |rs| && rs[j] == out[i];
    }
  }

  /** Every review with another id survives the pull. */
  lemma {:induction false} PullKeeps(rs: seq<Review>, id: string, r: Review)
    requires r in rs && r.id != id
    ensures r in Pull(rs, id)
  {
    if rs[0] != r {
      assert r in rs[1..];
      PullKeeps(rs[1..], id, r);
    }
  }

  lemma {:induction false} PullAppend(a: seq<Review>, b: seq<Review>, id: string)
    ensures Pull(a + b, id) == Pull(a, id) + Pull(b, id)
  {
    if a == [] {
      assert a + b == b;
    } else {
      assert (a + b)[0] == a[0];
      assert (a + b)[1..] == a[1..] + b;
      PullAppend(a[1..], b, id);
    }
  }

  lemma {:induction false} PullAbsent(rs: seq<Review>, id: string)
    requires forall j :: 0 <= j < |rs| ==> rs[j].id != id
    ensures Pull(rs, id) == rs
  {
    if rs != [] {
      PullAbsent(rs[1..], id);
      assert rs == [rs[0]] + rs[1..];
    }
  }

  /** When only position k carries the id, pulling it removes exactly that review. */
  lemma PullAt(rs: seq<Review>, k: nat, id: string)
    requires k < |rs| && rs[k].id == id
    requires forall j :: 0 <= j < |rs| && j != k ==> rs[j].id != id
    ensures Pull(rs, id) == rs[..k] + rs[k + 1..]
  {
    var before, after := rs[..k], rs[k + 1..];
    assert rs == before + ([rs[k]] + after);
    PullAppend(before, [rs[k]] + after, id);
    assert Pull([rs[k]] + after, id) == Pull(after, id) by {
      assert ([rs[k]] + after)[0] == rs[k];
      assert ([rs[k]] + after)[1..] == after;
    }
    assert forall j :: 0 <= j < |before| ==> before[j] == rs[j];
    PullAbsent(before, id);
    assert forall j :: 0 <= j < |after| ==> after[j] == rs[k + 1 + j];
    PullAbsent(after, id);
  }

  /** `reviewsReadOne`: the first review with the id, together with its location's name and id. */
  function ReadOne(locations: map<string, Location>, locationId: string, reviewId: string): (res: Response)
    ensures locationId !in locations ==> res == Response(NotFound, Message("Location not found"))
    ensures locationId in locations && FindReview(locations[locationId].reviews, reviewId).None? ==>
              res == Response(NotFound, Message("Review not found"))
    ensures res.status == Ok <==>
              locationId in locations && FindReview(locations[locationId].reviews, reviewId).Some?
    ensures res.status == Ok ==>
              && res.body.ReviewWithLocation?
              && res.body.locationName == locations[locationId].name
              && res.body.locationId == locationId
              && res.body.review.id == reviewId
              && res.body.review ==
                 locations[locationId].reviews[FindReview(locations[locationId].reviews, reviewId).value]
  {
    if locationId !in locations then Response(NotFound, Message("Location not found"))
    else
      var loc := locations[locationId];
      match FindReview(loc.reviews, reviewId)
      case None => Response(NotFound, Message("Review not found"))
      case Some(k) => Response(Ok, ReviewWithLocation(loc.name, locationId, loc.reviews[k]))
  }

  /** A list with one review appended is valid exactly when the list and the review are. */
  lemma AppendValid(rs: seq<Review>, r: Review)
    ensures AllReviewsValid(rs + [r]) <==> AllReviewsValid(rs) && ValidReview(r)
  {
    if AllReviewsValid(rs + [r]) {
      assert forall i :: 0 <= i < |rs| ==> (rs + [r])[i] == rs[i];
      assert (rs + [r])[|rs|] == r;
    }
  }

  /** A review appended under an id no earlier review has is the one the id finds. */
  lemma FindAppended(rs: seq<Review>, r: Review)
    requires FindReview(rs, r.id).None?
    ensures FindReview(rs + [r], r.id) == Some(|rs|)
  {
    assert (rs + [r])[|rs|] == r;
    assert forall j :: 0 <= j < |rs| ==> (rs + [r])[j] == rs[j];
  }

  /** A review put in the place of the first one with its id is found there. */
  lemma FindReplaced(rs: seq<Review>, k: nat, r: Review)
    requires FindReview(rs, r.id) == Some(k)
    ensures FindReview(rs[k := r], r.id) == Some(k)
  {
    assert rs[k := r][k] == r;
  }

  /** After a pull, no review with the id is found. */
  lemma PullGone(rs: seq<Review>, id: string)
    ensures FindReview(Pull(rs, id), id).None?
  {
    var out := Pull(rs, id);
    var k := FindReview(out, id);
    if k.Some? {
      PullSubset(rs, id, out[k.value]);
    }
  }

  /** Putting a valid review in place of another keeps the list valid. */
  lemma ReplaceKeepsValid(rs: seq<Review>, k: nat, r: Review)
    requires AllReviewsValid(rs) && k < |rs| && ValidReview(r)
    ensures AllReviewsValid(rs[k := r])
  {
  }

  /** Replacing a stored location's reviews by valid ones and recomputing its rating keeps the collection valid. */
  lemma SaveReviewsKeepsValid(m: map<string, Location>, id: string, rs: seq<Review>, saveOk: bool)
    requires AllValidIn(m) && id in m && AllReviewsValid(rs)
    ensures AllValidIn(m[id := Recompute(m[id].(reviews := rs), saveOk)])
  {
    var saved := m[id].(reviews := rs);
    assert ValidLocation(m[id]);
    ValidReviewsInRange(rs);
    RecomputedRating(saved, saveOk);
    StoreKeepsValid(m, id, Recompute(saved, saveOk));
  }

  /** `updateAverageRating`: reload the location and store the mean of its reviews. */
  method UpdateAverageRating(db: LocationStore, locationId: string, saveOk: bool)
    modifies db
    ensures db.locations ==
              if locationId in old(db.locations)
              then old(db.locations)[locationId := Recompute(old(db.locations)[locationId], saveOk)]
              else old(db.locations)
  {
    if locationId in db.locations {
      db.locations := db.locations[locationId := Recompute(db.locations[locationId], saveOk)];
    }
  }

  /** The review a create request builds from the body, before the save. */
  function Submitted(body: ReviewFields, castNumber: string -> Option<real>, reviewId: string,
                     now: Time): Option<Review> {
    NewReview(reviewId, body.author, CastRating(body.rating, castNumber), body.reviewText, now)
  }

  /**
   * What `reviewsCreate` answers, and the collection afterwards. The save
   * validates every embedded review, the new one and those already stored,
   * and a refused save answers 400.
   */
  function CreateEffect(m: map<string, Location>, locationId: string, body: ReviewFields,
                        castNumber: string -> Option<real>, reviewId: string, now: Time,
                        saveOk: bool): (e: (Response, map<string, Location>))
    ensures locationId == "" ==> e == (Response(NotFound, Message("Location ID is required")), m)
    ensures locationId != "" && locationId !in m ==> e == (Response(NotFound, Message("Location not found")), m)
    ensures e.0.status == Created <==>
              && locationId != "" && locationId in m
              && Submitted(body, castNumber, reviewId, now).Some?
              && AllReviewsValid(m[locationId].reviews)
    ensures e.0.status != Created ==> e.1 == m
    ensures e.0.status != Created && locationId != "" && locationId in m ==>
              e.0 == Response(BadRequest, ValidationFailure)
    ensures e.0.status == Created ==>
              && e.0.body == ReviewDoc(Submitted(body, castNumber, reviewId, now).value)
              && locationId in e.1
              && e.1[locationId].reviews == m[locationId].reviews + [e.0.body.review]
              && e.1 == m[locationId := Recompute(m[locationId].(reviews := e.1[locationId].reviews), saveOk)]
  {
    if locationId == "" then (Response(NotFound, Message("Location ID is required")), m)
    else if locationId !in m then (Response(NotFound, Message("Location not found")), m)
    else
      var loc := m[locationId];
      match Submitted(body, castNumber, reviewId, now)
      case None => (Response(BadRequest, ValidationFailure), m)
      case Some(r) =>
        AppendValid(loc.reviews, r);
        if AllReviewsValid(loc.reviews + [r])
        then (Response(Created, ReviewDoc(r)), m[locationId := Recompute(loc.(reviews := loc.reviews + [r]), saveOk)])
        else (Response(BadRequest, ValidationFailure), m)
  }

  /** A created review reads back under its fresh id, as the response showed it. */
  lemma ReadAfterCreate(m: map<string, Location>, locationId: string, body: ReviewFields,
                        castNumber: string -> Option<real>, reviewId: string, now: Time, saveOk: bool)
    requires locationId in m && FindReview(m[locationId].reviews, reviewId).None?
    ensures var e := CreateEffect(m, locationId, body, castNumber, reviewId, now, saveOk);
            e.0.status == Created ==>
              ReadOne(e.1, locationId, reviewId) ==
              Response(Ok, ReviewWithLocation(m[locationId].name, locationId, e.0.body.review))
  {
    var e := CreateEffect(m, locationId, body, castNumber, reviewId, now, saveOk);
    if e.0.status == Created {
      FindAppended(m[locationId].reviews, e.0.body.review);
    }
  }

  /**
   * What `reviewsUpdateOne` answers, and the collection afterwards: the first
   * review with the id is replaced by the merged one when the save accepts
   * the whole list.
   */
  function UpdateEffect(m: map<string, Location>, locationId: string, reviewId: string, body: ReviewFields,
                        castNumber: string -> Option<real>, saveOk: bool): (e: (Response, map<string, Location>))
    ensures locationId == "" || reviewId == "" ==>
              e == (Response(NotFound, Message("Location ID and Review ID are required")), m)
    ensures locationId != "" && reviewId != "" && locationId !in m ==>
              e == (Response(NotFound, Message("Location not found")), m)
    ensures locationId != "" && reviewId != "" && locationId in m &&
            FindReview(m[locationId].reviews, reviewId).None? ==>
              e == (Response(NotFound, Message("Review not found")), m)
    ensures e.0.status == Ok <==>
              && locationId != "" && reviewId != "" && locationId in m
              && var rs := m[locationId].reviews;
              && FindReview(rs, reviewId).Some?
              && var k := FindReview(rs, reviewId).value;
              && Merge(rs[k], body, castNumber).Some?
              && AllReviewsValid(rs[k := Merge(rs[k], body, castNumber).value])
    ensures e.0.status != Ok ==> e.1 == m && (e.0.status == NotFound || e.0 == Response(BadRequest, ValidationFailure))
    ensures e.0.status == Ok ==>
              && locationId in m && FindReview(m[locationId].reviews, reviewId).Some?
              && var rs := m[locationId].reviews;
              && var k := FindReview(rs, reviewId).value;
              && e.0.body == ReviewDoc(Merge(rs[k], body, castNumber).value)
              && e.0.body.review.id == reviewId
              && e.1 == m[locationId := Recompute(m[locationId].(reviews := rs[k := e.0.body.review]), saveOk)]
  {
    if locationId == "" || reviewId == "" then
      (Response(NotFound, Message("Location ID and Review ID are required")), m)
    else if locationId !in m then (Response(NotFound, Message("Location not found")), m)
    else
      var loc := m[locationId];
      match FindReview(loc.reviews, reviewId)
      case None => (Response(NotFound, Message("Review not found")), m)
      case Some(k) =>
        match Merge(loc.reviews[k], body, castNumber)
        case None => (Response(BadRequest, ValidationFailure), m)
        case Some(merged) =>
          if AllReviewsValid(loc.reviews[k := merged])
          then (Response(Ok, ReviewDoc(merged)),
                m[locationId := Recompute(loc.(reviews := loc.reviews[k := merged]), saveOk)])
          else (Response(BadRequest, ValidationFailure), m)
  }

  /** An updated review reads back under its id, as the response showed it. */
  lemma ReadAfterUpdate(m: map<string, Location>, locationId: string, reviewId: string, body: ReviewFields,
                        castNumber: string -> Option<real>, saveOk: bool)
    ensures var e := UpdateEffect(m, locationId, reviewId, body, castNumber, saveOk);
            e.0.status == Ok ==>
              ReadOne(e.1, locationId, reviewId) ==
              Response(Ok, ReviewWithLocation(m[locationId].name, locationId, e.0.body.review))
  {
    var e := UpdateEffect(m, locationId, reviewId, body, castNumber, saveOk);
    if e.0.status == Ok {
      var rs := m[locationId].reviews;
      FindReplaced(rs, FindReview(rs, reviewId).value, e.0.body.review);
    }
  }

  /**
   * What `reviewsDeleteOne` answers, and the collection afterwards: every
   * review with the id is pulled when the save accepts the remaining list.
   */
  function DeleteEffect(m: map<string, Location>, locationId: string, reviewId: string,
                        saveOk: bool): (e: (Response, map<string, Location>))
    ensures locationId == "" || reviewId == "" ==>
              e == (Response(NotFound, Message("Location ID and Review ID are required")), m)
    ensures locationId != "" && reviewId != "" && locationId !in m ==>
              e == (Response(NotFound, Message("Location not found")), m)
    ensures locationId != "" && reviewId != "" && locationId in m &&
            FindReview(m[locationId].reviews, reviewId).None? ==>
              e == (Response(NotFound, Message("Review not found")), m)
    ensures e.0.status == NoContentStatus <==>
              && locationId != "" && reviewId != "" && locationId in m
              && FindReview(m[locationId].reviews, reviewId).Some?
              && AllReviewsValid(Pull(m[locationId].reviews, reviewId))
    ensures e.0.status != NoContentStatus ==>
              e.1 == m && (e.0.status == NotFound || e.0 == Response(BadRequest, ValidationFailure))
    ensures e.0.status == NoContentStatus ==>
              && e.0.body == NoBody
              && locationId in m
              && e.1 == m[locationId := Recompute(m[locationId].(reviews := Pull(m[locationId].reviews, reviewId)), saveOk)]
  {
    if locationId == "" || reviewId == "" then
      (Response(NotFound, Message("Location ID and Review ID are required")), m)
    else if locationId !in m then (Response(NotFound, Message("Location not found")), m)
    else
      var loc := m[locationId];
      if FindReview(loc.reviews, reviewId).None? then (Response(NotFound, Message("Review not found")), m)
      else if AllReviewsValid(Pull(loc.reviews, reviewId))
      then (Response(NoContentStatus, NoBody),
            m[locationId := Recompute(loc.(reviews := Pull(loc.reviews, reviewId)), saveOk)])
      else (Response(BadRequest, ValidationFailure), m)
  }

  /** After a delete, the review no longer reads back. */
  lemma ReadAfterDelete(m: map<string, Location>, locationId: string, reviewId: string, saveOk: bool)
    ensures var e := DeleteEffect(m, locationId, reviewId, saveOk);
            e.0.status == NoContentStatus ==>
              ReadOne(e.1, locationId, reviewId) == Response(NotFound, Message("Review not found"))
  {
    if locationId in m {
      PullGone(m[locationId].reviews, reviewId);
    }
  }

  /** `reviewsCreate`: append the new review, save, recompute the rating, answer with the review. */
  method Create(db: LocationStore, locationId: string, body: ReviewFields, castNumber: string -> Option<real>,
                reviewId: string, now: Time, ratingSaveOk: bool) returns (res: Response)
    requires db.Valid()
    modifies db
    ensures db.Valid()
    ensures old(db.AllValid()) ==> db.AllValid()
    ensures (res, db.locations) ==
            CreateEffect(old(db.locations), locationId, body, castNumber, reviewId, now, ratingSaveOk)
  {
    if locationId == "" {
      return Response(NotFound, Message("Location ID is required"));
    }
    if locationId !in db.locations {
      return Response(NotFound, Message("Location not found"));
    }
    var loc := db.locations[locationId];
    var candidate := Submitted(body, castNumber, reviewId, now);
    if candidate.None? || !AllReviewsValid(loc.reviews + [candidate.value]) {
      return Response(BadRequest, ValidationFailure);
    }
    var r := candidate.value;
    var saved := loc.(reviews := loc.reviews + [r]);
    if db.AllValid() {
      SaveReviewsKeepsValid(db.locations, locationId, saved.reviews, ratingSaveOk);
    }
    ghost var before := db.locations;
    db.locations := db.locations[locationId := saved];
    UpdateAverageRating(db, locationId, ratingSaveOk);
    assert db.locations == before[locationId := Recompute(saved, ratingSaveOk)];
    res := Response(Created, ReviewDoc(r));
  }

  /** `reviewsUpdateOne`: merge the supplied fields into the review, save, recompute the rating. */
  method UpdateOne(db: LocationStore, locationId: string, reviewId: string, body: ReviewFields,
                   castNumber: string -> Option<real>, ratingSaveOk: bool) returns (res: Response)
    requires db.Valid()
    modifies db
    ensures db.Valid()
    ensures old(db.AllValid()) ==> db.AllValid()
    ensures (res, db.locations) ==
            UpdateEffect(old(db.locations), locationId, reviewId, body, castNumber, ratingSaveOk)
  {
    if locationId == "" || reviewId == "" {
      return Response(NotFound, Message("Location ID and Review ID are required"));
    }
    if locationId !in db.locations {
      return Response(NotFound, Message("Location not found"));
    }
    var loc := db.locations[locationId];
    var found := FindReview(loc.reviews, reviewId);
    if found.None? {
      return Response(NotFound, Message("Review not found"));
    }
    var k := found.value;
    var merged := Merge(loc.reviews[k], body, castNumber);
    if merged.None? || !AllReviewsValid(loc.reviews[k := merged.value]) {
      return Response(BadRequest, ValidationFailure);
    }
    var saved := loc.(reviews := loc.reviews[k := merged.value]);
    if db.AllValid() {
      SaveReviewsKeepsValid(db.locations, locationId, saved.reviews, ratingSaveOk);
    }
    ghost var before := db.locations;
    db.locations := db.locations[locationId := saved];
    UpdateAverageRating(db, locationId, ratingSaveOk);
    assert db.locations == before[locationId := Recompute(saved, ratingSaveOk)];
    res := Response(Ok, ReviewDoc(merged.value));
  }

  /** `reviewsDeleteOne`: pull the review, save, recompute the rating, answer with no content. */
  method DeleteOne(db: LocationStore, locationId: string, reviewId: string,
                   ratingSaveOk: bool) returns (res: Response)
    requires db.Valid()
    modifies db
    ensures db.Valid()
    ensures old(db.AllValid()) ==> db.AllValid()
    ensures (res, db.locations) == DeleteEffect(old(db.locations), locationId, reviewId, ratingSaveOk)
  {
    if locationId == "" || reviewId == "" {
      return Response(NotFound, Message("Location ID and Review ID are required"));
    }
    if locationId !in db.locations {
      return Response(NotFound, Message("Location not found"));
    }
    var loc := db.locations[locationId];
    var found := FindReview(loc.reviews, reviewId);
    if found.None? {
      return Response(NotFound, Message("Review not found"));
    }
    var saved := loc.(reviews := Pull(loc.reviews, reviewId));
    if !AllReviewsValid(saved.reviews) {
      return Response(BadRequest, ValidationFailure);
    }
    if db.AllValid() {
      SaveReviewsKeepsValid(db.locations, locationId, saved.reviews, ratingSaveOk);
    }
    ghost var before := db.locations;
    db.locations := db.locations[locationId := saved];
    UpdateAverageRating(db, locationId, ratingSaveOk);
    assert db.locations == before[locationId := Recompute(saved, ratingSaveOk)];
    res := Response(NoContentStatus, NoBody);
  }
}
