/**
 * The API router of `app_api/routes/index.js`: a static table from verb and
 * path pattern to handler, a token guard on three review routes, and a
 * catch-all that answers 404. Paths are given as their segments, with the
 * `/api` mount point already removed.
 */
module Routes {
  import opened Js

  datatype Verb = Get | Post | Put | Delete | Patch | Head | Options

  datatype Handler =
    | LocationsListByDistance | LocationsCreate | LocationsReadOne | LocationsUpdateOne | LocationsDeleteOne
    | ReviewsCreate | ReviewsReadOne | ReviewsUpdateOne | ReviewsDeleteOne
    | Register | Login

  /** A pattern segment: a literal, or a `:name` parameter. */
  datatype Segment = Lit(text: string) | Param(name: string)

  /** One table row; `guarded` means the token middleware runs before the handler. */
  datatype Route = Route(verb: Verb, pattern: seq<Segment>, guarded: bool, handler: Handler)

  const LocationsPattern: seq<Segment> := [Lit("locations")]
  const LocationPattern: seq<Segment> := [Lit("locations"), Param("locationid")]
  const ReviewsPattern: seq<Segment> := [Lit("locations"), Param("locationid"), Lit("reviews")]
  const ReviewPattern: seq<Segment> :=
    [Lit("locations"), Param("locationid"), Lit("reviews"), Param("reviewid")]

  const Table: seq<Route> := [
    Route(Get, LocationsPattern, false, LocationsListByDistance),
    Route(Post, LocationsPattern, false, LocationsCreate),
    Route(Get, LocationPattern, false, LocationsReadOne),
    Route(Put, LocationPattern, false, LocationsUpdateOne),
    Route(Delete, LocationPattern, false, LocationsDeleteOne),
    Route(Post, ReviewsPattern, true, ReviewsCreate),
    Route(Get, ReviewPattern, false, ReviewsReadOne),
    Route(Put, ReviewPattern, true, ReviewsUpdateOne),
    Route(Delete, ReviewPattern, true, ReviewsDeleteOne),
    Route(Post, [Lit("register")], false, Register),
    Route(Post, [Lit("login")], false, Login)
  ]

  type Params = map<string, string>

  /** A literal matches itself; a parameter matches any non-empty segment. */
  predicate SegmentMatches(s: Segment, part: string) {
    match s
    case Lit(t) => part == t
    case Param(_) => part != ""
  }

  predicate Fits(pattern: seq<Segment>, path: seq<string>) {
    |pattern| == |path| && forall k :: 0 <= k < |pattern| ==> SegmentMatches(pattern[k], path[k])
  }

  /** Position k holds the first parameter of its name. */
  predicate FirstParam(pattern: seq<Segment>, k: int)
    requires 0 <= k < |pattern|
  {
    pattern[k].Param? && forall j :: 0 <= j < k ==> pattern[j] != pattern[k]
  }

  /** Match a path against a pattern, binding each parameter to its segment. */
  function Match(pattern: seq<Segment>, path: seq<string>): (r: Option<Params>)
    ensures r.Some? <==> Fits(pattern, path)
    ensures r.Some? ==>
              forall k :: 0 <= k < |pattern| && FirstParam(pattern, k) ==>
                pattern[k].name in r.value && r.value[pattern[k].name] == path[k]
    ensures r.Some? ==> forall n :: n in r.value ==> Param(n) in pattern
  {
    if pattern == [] || path == [] then
      if pattern == [] && path == [] then Some(map[]) else None
    else if !SegmentMatches(pattern[0], path[0]) then None
    else
      match Match(pattern[1..], path[1..])
      case None => None
      case Some(rest) =>
        FitsStep(pattern, path);
        BindsStep(pattern, path, rest);
        KeysStep(pattern, path, rest);
        Some(if pattern[0].Param? then rest[pattern[0].name := path[0]] else rest)
  }

  /** The inductive step of Match's contract: the path still fits. */
  lemma FitsStep(pattern: seq<Segment>, path: seq<string>)
    requires |pattern| > 0 && |path| > 0 && SegmentMatches(pattern[0], path[0])
    requires Fits(pattern[1..], path[1..])
    ensures Fits(pattern, path)
  {
    forall k | 0 <= k < |pattern| ensures SegmentMatches(pattern[k], path[k]) {
      if k > 0 { assert pattern[k] == pattern[1..][k - 1] && path[k] == path[1..][k - 1]; }
    }
  }

  /** The inductive step of Match's contract: every first parameter keeps its binding. */
  lemma BindsStep(pattern: seq<Segment>, path: seq<string>, rest: Params)
    requires |pattern| > 0 && |path| == |pattern|
    requires forall k :: 0 <= k < |pattern[1..]| && FirstParam(pattern[1..], k) ==>
               pattern[1..][k].name in rest && rest[pattern[1..][k].name] == path[1..][k]
    ensures var m := if pattern[0].Param? then rest[pattern[0].name := path[0]] else rest;
              forall k :: 0 <= k < |pattern| && FirstParam(pattern, k) ==>
                pattern[k].name in m && m[pattern[k].name] == path[k]
  {
    var m := if pattern[0].Param? then rest[pattern[0].name := path[0]] else rest;
    forall k | 0 <= k < |pattern| && FirstParam(pattern, k)
      ensures pattern[k].name in m && m[pattern[k].name] == path[k]
    {
      if k > 0 {
        assert pattern[k] == pattern[1..][k - 1] && path[k] == path[1..][k - 1];
        assert FirstParam(pattern[1..], k - 1) by {
          forall j | 0 <= j < k - 1 ensures pattern[1..][j] != pattern[1..][k - 1] {
            assert pattern[1..][j] == pattern[j + 1];
          }
        }
        assert pattern[0] != pattern[k];
      }
    }
  }

  /** The inductive step of Match's contract: only the pattern's parameters are bound. */
  lemma KeysStep(pattern: seq<Segment>, path: seq<string>, rest: Params)
    requires |pattern| > 0 && |path| > 0
    requires forall n :: n in rest ==> Param(n) in pattern[1..]
    ensures var m := if pattern[0].Param? then rest[pattern[0].name := path[0]] else rest;
              forall n :: n in m ==> Param(n) in pattern
  {
    var m := if pattern[0].Param? then rest[pattern[0].name := path[0]] else rest;
    forall n | n in m ensures Param(n) in pattern {
      if n in rest {
        var i :| 0 <= i < |pattern[1..]| && pattern[1..][i] == Param(n);
        assert pattern[i + 1] == Param(n);
      } else {
        assert pattern[0] == Param(n);
      }
    }
  }

  /** A row for `routeVerb` takes a request made with `verb`; a HEAD request is served by a GET row. */
  predicate Serves(routeVerb: Verb, verb: Verb) {
    routeVerb == verb || (verb == Head && routeVerb == Get)
  }

  /** The route takes this request's verb and path. */
  predicate Handles(r: Route, verb: Verb, path: seq<string>) {
    Serves(r.verb, verb) && Match(r.pattern, path).Some?
  }

  /** The first row of `routes` that takes the request, with its bound parameters. */
  function Lookup(routes: seq<Route>, verb: Verb, path: seq<string>): (r: Option<(nat, Params)>)
    ensures r.Some? ==>
              && r.value.0 < |routes|
              && Handles(routes[r.value.0], verb, path)
              && Match(routes[r.value.0].pattern, path) == Some(r.value.1)
    ensures r.Some? ==> forall j :: 0 <= j < r.value.0 ==> !Handles(routes[j], verb, path)
    ensures r.None? <==> forall j :: 0 <= j < |routes| ==> !Handles(routes[j], verb, path)
  {
    if routes == [] then None
    else if Handles(routes[0], verb, path) then
      Some((0, Match(routes[0].pattern, path).value))
    else
      match Lookup(routes[1..], verb, path)
      case None => None
      case Some((i, ps)) => Some((i + 1, ps))
  }

  /** What the router does with a request. */
  datatype Outcome =
    | Call(handler: Handler, params: Params)
    /** The token middleware refused the credential; the handler does not run. */
    | Rejected
    /** No row matched: the catch-all answers. */
    | NoRoute

  const EndpointNotFound: string := "Endpoint not found"

  /** Dispatch a request; `tokenValid` is the token middleware's verdict. */
  function Dispatch(verb: Verb, path: seq<string>, tokenValid: bool): (o: Outcome)
    ensures o.NoRoute? <==> forall i :: 0 <= i < |Table| ==> !Handles(Table[i], verb, path)
    ensures o.Rejected? ==> !tokenValid
  {
    match Lookup(Table, verb, path)
    case None => NoRoute
    case Some((i, ps)) =>
      if Table[i].guarded && !tokenValid then Rejected else Call(Table[i].handler, ps)
  }

  /** The guard sits on exactly the three review routes that write. */
  predicate Guarded(h: Handler) {
    h == ReviewsCreate || h == ReviewsUpdateOne || h == ReviewsDeleteOne
  }

  lemma GuardedRows(i: nat)
    requires i < |Table|
    ensures Table[i].guarded <==> Guarded(Table[i].handler)
  {
  }

  /** A route is known by its verb, its length and its first literal. */
  function Signature(r: Route): (Verb, nat, string)
    requires |r.pattern| > 0 && r.pattern[0].Lit?
  {
    (r.verb, |r.pattern|, r.pattern[0].text)
  }

  lemma SignaturesDistinct(i: nat, j: nat)
    requires i < |Table| && j < |Table|
    ensures |Table[i].pattern| > 0 && Table[i].pattern[0].Lit?
    ensures |Table[j].pattern| > 0 && Table[j].pattern[0].Lit?
    ensures Signature(Table[i]) == Signature(Table[j]) ==> i == j
  {
  }

  /** At most one row takes any request, so the order of the table does not matter. */
  lemma RowsDisjoint(verb: Verb, path: seq<string>, i: nat, j: nat)
    requires i < |Table| && j < |Table|
    requires Handles(Table[i], verb, path) && Handles(Table[j], verb, path)
    ensures i == j
  {
    RowVerbs(i);
    RowVerbs(j);
    SignaturesDistinct(i, j);
    assert SegmentMatches(Table[i].pattern[0], path[0]);
    assert SegmentMatches(Table[j].pattern[0], path[0]);
  }

  /** Whichever row takes the request is the one dispatch uses. */
  lemma DispatchUsesRow(verb: Verb, path: seq<string>, tokenValid: bool, i: nat)
    requires i < |Table| && Handles(Table[i], verb, path)
    ensures Dispatch(verb, path, tokenValid) ==
              if Table[i].guarded && !tokenValid then Rejected
              else Call(Table[i].handler, Match(Table[i].pattern, path).value)
  {
    var found := Lookup(Table, verb, path);
    assert found.Some?;
    RowsDisjoint(verb, path, i, found.value.0);
  }

  /** A guarded handler runs only with a valid token. */
  lemma GuardedNeedsToken(verb: Verb, path: seq<string>, tokenValid: bool)
    requires Dispatch(verb, path, tokenValid).Call?
    requires Guarded(Dispatch(verb, path, tokenValid).handler)
    ensures tokenValid
  {
    var i := Lookup(Table, verb, path).value.0;
    GuardedRows(i);
  }

  lemma ListAndCreateRoutes(tokenValid: bool)
    ensures Dispatch(Get, ["locations"], tokenValid) == Call(LocationsListByDistance, map[])
    ensures Dispatch(Post, ["locations"], tokenValid) == Call(LocationsCreate, map[])
  {
    assert Table[0] == Route(Get, LocationsPattern, false, LocationsListByDistance);
    DispatchUsesRow(Get, ["locations"], tokenValid, 0);
    assert Table[1] == Route(Post, LocationsPattern, false, LocationsCreate);
    DispatchUsesRow(Post, ["locations"], tokenValid, 1);
  }

  /** A location path binds its id. */
  lemma LocationPathMatches(id: string)
    requires id != ""
    ensures Match(LocationPattern, ["locations", id]) == Some(map["locationid" := id])
  {
    var path := ["locations", id];
    assert Fits(LocationPattern, path);
    BindsOne(LocationPattern, path, 1, "locationid");
  }

  /** GET on one location carries no guard. */
  lemma LocationReadRoute(id: string, tokenValid: bool)
    requires id != ""
    ensures Dispatch(Get, ["locations", id], tokenValid) == Call(LocationsReadOne, map["locationid" := id])
  {
    LocationPathMatches(id);
    assert Table[2] == Route(Get, LocationPattern, false, LocationsReadOne);
    DispatchUsesRow(Get, ["locations", id], tokenValid, 2);
  }

  /** PUT and DELETE on one location carry no guard either. */
  lemma LocationWriteRoutes(id: string, tokenValid: bool)
    requires id != ""
    ensures Dispatch(Put, ["locations", id], tokenValid) == Call(LocationsUpdateOne, map["locationid" := id])
    ensures Dispatch(Delete, ["locations", id], tokenValid) == Call(LocationsDeleteOne, map["locationid" := id])
  {
    LocationPathMatches(id);
    assert Table[3] == Route(Put, LocationPattern, false, LocationsUpdateOne);
    DispatchUsesRow(Put, ["locations", id], tokenValid, 3);
    assert Table[4] == Route(Delete, LocationPattern, false, LocationsDeleteOne);
    DispatchUsesRow(Delete, ["locations", id], tokenValid, 4);
  }

  /** POST on a location's reviews reaches the handler only with a valid token. */
  lemma ReviewCreateRoute(id: string, tokenValid: bool)
    requires id != ""
    ensures Dispatch(Post, ["locations", id, "reviews"], tokenValid) ==
              if tokenValid then Call(ReviewsCreate, map["locationid" := id]) else Rejected
  {
    var path := ["locations", id, "reviews"];
    assert Fits(ReviewsPattern, path);
    BindsOne(ReviewsPattern, path, 1, "locationid");
    assert Table[5] == Route(Post, ReviewsPattern, true, ReviewsCreate);
    DispatchUsesRow(Post, path, tokenValid, 5);
  }

  /** A review path binds both of its ids. */
  lemma ReviewPathMatches(id: string, rid: string)
    requires id != "" && rid != ""
    ensures Fits(ReviewPattern, ["locations", id, "reviews", rid])
    ensures Match(ReviewPattern, ["locations", id, "reviews", rid]) ==
              Some(map["locationid" := id, "reviewid" := rid])
  {
    var path := ["locations", id, "reviews", rid];
    assert Fits(ReviewPattern, path);
    BindsTwo(ReviewPattern, path, 1, "locationid", 3, "reviewid");
  }

  /** GET on one review is open. */
  lemma ReviewReadRoute(id: string, rid: string, tokenValid: bool)
    requires id != "" && rid != ""
    ensures Dispatch(Get, ["locations", id, "reviews", rid], tokenValid) ==
              Call(ReviewsReadOne, map["locationid" := id, "reviewid" := rid])
  {
    assert Table[6] == Route(Get, ReviewPattern, false, ReviewsReadOne);
    ReviewPathMatches(id, rid);
    DispatchUsesRow(Get, ["locations", id, "reviews", rid], tokenValid, 6);
  }

  /** A guarded review row takes every review path for its verb, given a valid token. */
  lemma GuardedReviewRow(verb: Verb, k: nat, h: Handler, path: seq<string>, tokenValid: bool)
    requires k < |Table| && Table[k] == Route(verb, ReviewPattern, true, h)
    requires Match(ReviewPattern, path).Some?
    ensures Dispatch(verb, path, tokenValid) ==
              if tokenValid then Call(h, Match(ReviewPattern, path).value) else Rejected
  {
    DispatchUsesRow(verb, path, tokenValid, k);
  }

  /** PUT on one review needs a valid token. */
  lemma ReviewUpdateRoute(id: string, rid: string, tokenValid: bool)
    requires id != "" && rid != ""
    ensures Dispatch(Put, ["locations", id, "reviews", rid], tokenValid) ==
              if tokenValid then Call(ReviewsUpdateOne, map["locationid" := id, "reviewid" := rid]) else Rejected
  {
    ReviewPathMatches(id, rid);
    assert Table[7] == Route(Put, ReviewPattern, true, ReviewsUpdateOne);
    GuardedReviewRow(Put, 7, ReviewsUpdateOne, ["locations", id, "reviews", rid], tokenValid);
  }

  /** DELETE on one review needs a valid token. */
  lemma ReviewDeleteRoute(id: string, rid: string, tokenValid: bool)
    requires id != "" && rid != ""
    ensures Dispatch(Delete, ["locations", id, "reviews", rid], tokenValid) ==
              if tokenValid then Call(ReviewsDeleteOne, map["locationid" := id, "reviewid" := rid]) else Rejected
  {
    ReviewPathMatches(id, rid);
    assert Table[8] == Route(Delete, ReviewPattern, true, ReviewsDeleteOne);
    GuardedReviewRow(Delete, 8, ReviewsDeleteOne, ["locations", id, "reviews", rid], tokenValid);
  }

  lemma AuthenticationRoutes(tokenValid: bool)
    ensures Dispatch(Post, ["register"], tokenValid) == Call(Register, map[])
    ensures Dispatch(Post, ["login"], tokenValid) == Call(Login, map[])
  {
    assert Table[9] == Route(Post, [Lit("register")], false, Register);
    DispatchUsesRow(Post, ["register"], tokenValid, 9);
    assert Table[10] == Route(Post, [Lit("login")], false, Login);
    DispatchUsesRow(Post, ["login"], tokenValid, 10);
  }

  /** A pattern with one parameter binds exactly that parameter. */
  lemma BindsOne(pattern: seq<Segment>, path: seq<string>, k: nat, name: string)
    requires Fits(pattern, path) && k < |pattern| && pattern[k] == Param(name)
    requires forall j :: 0 <= j < |pattern| && j != k ==> pattern[j].Lit?
    ensures Match(pattern, path) == Some(map[name := path[k]])
  {
    var m := Match(pattern, path).value;
    assert FirstParam(pattern, k);
    assert name in m && m[name] == path[k];
    forall n | n in m ensures n == name {
      var j :| 0 <= j < |pattern| && pattern[j] == Param(n);
    }
    assert m == map[name := path[k]];
  }

  /** A pattern with two differently named parameters binds exactly those two. */
  lemma BindsTwo(pattern: seq<Segment>, path: seq<string>, k1: nat, n1: string, k2: nat, n2: string)
    requires Fits(pattern, path) && k1 < k2 < |pattern| && n1 != n2
    requires pattern[k1] == Param(n1) && pattern[k2] == Param(n2)
    requires forall j :: 0 <= j < |pattern| && j != k1 && j != k2 ==> pattern[j].Lit?
    ensures Match(pattern, path) == Some(map[n1 := path[k1], n2 := path[k2]])
  {
    var m := Match(pattern, path).value;
    assert FirstParam(pattern, k1);
    assert FirstParam(pattern, k2);
    assert n1 in m && m[n1] == path[k1];
    assert n2 in m && m[n2] == path[k2];
    forall n | n in m ensures n == n1 || n == n2 {
      var j :| 0 <= j < |pattern| && pattern[j] == Param(n);
    }
    TwoKeys(m, n1, path[k1], n2, path[k2]);
  }

  /** A map whose only keys are a and b, bound to x and y, is the two-entry display. */
  lemma TwoKeys(m: Params, a: string, x: string, b: string, y: string)
    requires a in m && m[a] == x && b in m && m[b] == y
    requires forall n :: n in m ==> n == a || n == b
    ensures m == map[a := x, b := y]
  {
  }

  lemma RowVerbs(i: nat)
    requires i < |Table|
    ensures Table[i].verb == Get || Table[i].verb == Post || Table[i].verb == Put || Table[i].verb == Delete
  {
  }

  /** No PATCH or OPTIONS request has a route. */
  lemma OtherVerbsNoRoute(path: seq<string>, tokenValid: bool)
    ensures Dispatch(Patch, path, tokenValid) == NoRoute
    ensures Dispatch(Options, path, tokenValid) == NoRoute
  {
    forall i | 0 <= i < |Table|
      ensures !Handles(Table[i], Patch, path) && !Handles(Table[i], Options, path)
    {
      RowVerbs(i);
    }
  }

  /** Over rows without a HEAD verb, a HEAD request finds the row a GET request finds. */
  lemma {:induction false} HeadLookupIsGet(routes: seq<Route>, path: seq<string>)
    requires forall i :: 0 <= i < |routes| ==> routes[i].verb != Head
    ensures Lookup(routes, Head, path) == Lookup(routes, Get, path)
  {
    if routes != [] {
      assert routes[0].verb != Head;
      HeadLookupIsGet(routes[1..], path);
    }
  }

  /** A HEAD request is dispatched exactly as the GET request for the same path. */
  lemma HeadIsGet(path: seq<string>, tokenValid: bool)
    ensures Dispatch(Head, path, tokenValid) == Dispatch(Get, path, tokenValid)
  {
    forall i | 0 <= i < |Table| ensures Table[i].verb != Head {
      RowVerbs(i);
    }
    HeadLookupIsGet(Table, path);
  }
}
