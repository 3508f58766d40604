/** The `/api/cities` routes (server/routes/cities.js): the state and
    country lists, the city listing with its filters, single city reads, the
    places of a city, and the statistics route. */
module CityRoutes {
  import opened Common
  import Text
  import Seqs
  import Paging
  import opened CityModel
  import PlaceModel
  import ReviewModel
  import PlaceRoutes
  import Database

  function StateOf(c: City): string { c.state }
  function CountryOf(c: City): string { c.country }

  /** The `field` of each active city, in stored order. */
  function ActiveValues(cs: seq<City>, field: City -> string): (r: seq<string>)
    ensures forall x :: x in r <==> exists i :: 0 <= i < |cs| && cs[i].status == "active" && field(cs[i]) == x
  {
    if cs == [] then []
    else
      var init := cs[..|cs| - 1];
      var last := cs[|cs| - 1];
      assert forall i :: 0 <= i < |init| ==> init[i] == cs[i];
      if last.status == "active" then ActiveValues(init, field) + [field(last)]
      else ActiveValues(init, field)
  }

  /** `GET /states`: the distinct states of active cities, sorted: each
      appears once, in strictly ascending order. */
  function States(cs: seq<City>): (r: seq<string>)
    ensures forall x :: x in r <==> exists i :: 0 <= i < |cs| && cs[i].status == "active" && cs[i].state == x
    ensures forall i, j :: 0 <= i < j < |r| ==> Text.LexLt(r[i], r[j])
  {
    Seqs.SortedDistinctSpec(ActiveValues(cs, StateOf));
    Seqs.SortedDistinct(ActiveValues(cs, StateOf))
  }

  /** `GET /countries`: the distinct countries of active cities, sorted. */
  function Countries(cs: seq<City>): (r: seq<string>)
    ensures forall x :: x in r <==> exists i :: 0 <= i < |cs| && cs[i].status == "active" && cs[i].country == x
    ensures forall i, j :: 0 <= i < j < |r| ==> Text.LexLt(r[i], r[j])
  {
    Seqs.SortedDistinctSpec(ActiveValues(cs, CountryOf));
    Seqs.SortedDistinct(ActiveValues(cs, CountryOf))
  }

  // ---------------------------------------------------------------------
  // City listing

  /** The query string of `GET /`. */
  datatype CityQuery = CityQuery(
    featured: Option<string>,
    search: Option<string>,
    state: Option<string>,
    country: Option<string>)

  /** The `query` object handed to `City.find`, beyond `status: 'active'`;
      each string is a case-insensitive regular expression. */
  datatype CityFilter = CityFilter(
    featuredOnly: bool,
    name: Option<string>,
    state: Option<string>,
    country: Option<string>)

  function CityFilterOf(q: CityQuery): CityFilter {
    CityFilter(
      q.featured == Some("true"),
      if Given(q.search) then q.search else None,
      if Given(q.state) then q.state else None,
      if Given(q.country) then q.country else None)
  }

  /** The `query` object, built one field at a time as the handler does. */
  method BuildCityQuery(q: CityQuery) returns (f: CityFilter)
    ensures f == CityFilterOf(q)
  {
    f := CityFilter(false, None, None, None);
    if q.featured == Some("true") {
      f := f.(featuredOnly := true);
    }
    if Given(q.search) {
      f := f.(name := q.search);
    }
    if Given(q.state) {
      f := f.(state := q.state);
    }
    if Given(q.country) {
      f := f.(country := q.country);
    }
  }

  predicate CityMatches(f: CityFilter, matches: PlaceRoutes.Matcher, c: City) {
    && c.status == "active"
    && (f.featuredOnly ==> c.featured)
    && (f.name.Some? ==> matches(f.name.value, c.name))
    && (f.state.Some? ==> matches(f.state.value, c.state))
    && (f.country.Some? ==> matches(f.country.value, c.country))
  }

  /** A listed city is active; `featured` filters only when it is exactly
      "true", and search, state and country each add a match on name, state
      and country, conjoined, when they are non-empty. */
  lemma CityFilterMeaning(q: CityQuery, matches: PlaceRoutes.Matcher, c: City)
    ensures CityMatches(CityFilterOf(q), matches, c) <==>
      && c.status == "active"
      && (q.featured == Some("true") ==> c.featured)
      && (Given(q.search) ==> matches(q.search.value, c.name))
      && (Given(q.state) ==> matches(q.state.value, c.state))
      && (Given(q.country) ==> matches(q.country.value, c.country))
  {
  }

  function CityListing(cs: seq<City>, q: CityQuery, matches: PlaceRoutes.Matcher): seq<City> {
    Seqs.SortBy(Seqs.Filter(cs, (c: City) => CityMatches(CityFilterOf(q), matches, c)), ByName)
  }

  /** `GET /`: the matching cities sorted by name. */
  method ListCities(cs: seq<City>, q: CityQuery, matches: PlaceRoutes.Matcher) returns (r: seq<City>)
    ensures r == CityListing(cs, q, matches)
  {
    var f := BuildCityQuery(q);
    r := Seqs.SortBy(Seqs.Filter(cs, (c: City) => CityMatches(f, matches, c)), ByName);
  }

  /** The listing holds every matching city, as often as it is stored and
      nothing else, only active ones, in ascending order of name. */
  lemma CityListingSpec(cs: seq<City>, q: CityQuery, matches: PlaceRoutes.Matcher)
    ensures var r := CityListing(cs, q, matches);
      && multiset(r) == multiset(Seqs.Filter(cs, (c: City) => CityMatches(CityFilterOf(q), matches, c)))
      && (forall c :: c in r <==> c in cs && CityMatches(CityFilterOf(q), matches, c))
      && (forall c :: c in r ==> c.status == "active")
      && Seqs.SortedBy(r, ByName)
  {
    var selected := Seqs.Filter(cs, (c: City) => CityMatches(CityFilterOf(q), matches, c));
    var r := Seqs.SortBy(selected, ByName);
    assert forall c :: c in r <==> c in multiset(r);
    assert forall c :: c in selected <==> c in multiset(selected);
    ByNameTotalPreorder();
    Seqs.SortBySorted(selected, ByName);
  }

  /** `GET /:id`: the city with that id, whatever its status. */
  function GetCity(cs: seq<City>, id: Id): (r: Result<City>)
    ensures r.Ok? <==> exists i :: 0 <= i < |cs| && cs[i].id == id
    ensures r.Ok? ==> r.value in cs && r.value.id == id
    ensures r.Err? ==> r.failure == NotFound
  {
    match Database.Find(cs, Database.CityKey, id)
    case None => Err(NotFound)
    case Some(k) => Ok(cs[k])
  }

  // ---------------------------------------------------------------------
  // Places of a city

  /** The query string of `GET /:id/places`. */
  datatype CityPlacesQuery = CityPlacesQuery(
    category: Option<string>,
    featured: Option<string>,
    limit: Option<int>,
    page: Option<int>)

  function CityPlacesFilter(city: Id, q: CityPlacesQuery): PlaceRoutes.PlaceFilter {
    PlaceRoutes.PlaceFilter(Some(city), if Given(q.category) then q.category else None,
                            q.featured == Some("true"), None, None, None)
  }

  /** The query `{ city: id, status: 'active' }` and its optional fields. */
  method BuildCityPlacesQuery(city: Id, q: CityPlacesQuery) returns (f: PlaceRoutes.PlaceFilter)
    ensures f == CityPlacesFilter(city, q)
  {
    f := PlaceRoutes.PlaceFilter(Some(city), None, false, None, None, None);
    if Given(q.category) {
      f := f.(category := q.category);
    }
    if q.featured == Some("true") {
      f := f.(featuredOnly := true);
    }
  }

  /** No regular expression takes part in this query. */
  function NoPattern(pattern: string, value: string): bool {
    false
  }

  function CityPlacesListing(ps: seq<PlaceModel.Place>, city: Id, q: CityPlacesQuery,
                             ratingLe: (PlaceModel.Rating, PlaceModel.Rating) -> bool): Result<Paging.Page<PlaceModel.Place>>
  {
    Paging.Paginate(
      Seqs.SortBy(PlaceRoutes.Select(ps, CityPlacesFilter(city, q), NoPattern), PlaceRoutes.RankedBefore(ratingLe)),
      q.page.GetOr(1), q.limit.GetOr(20))
  }

  /** `GET /:id/places`. */
  method CityPlaces(ps: seq<PlaceModel.Place>, city: Id, q: CityPlacesQuery,
                    ratingLe: (PlaceModel.Rating, PlaceModel.Rating) -> bool) returns (r: Result<Paging.Page<PlaceModel.Place>>)
    ensures r == CityPlacesListing(ps, city, q, ratingLe)
  {
    var f := BuildCityPlacesQuery(city, q);
    var sorted := Seqs.SortBy(PlaceRoutes.Select(ps, f, NoPattern), PlaceRoutes.RankedBefore(ratingLe));
    r := Paging.Paginate(sorted, q.page.GetOr(1), q.limit.GetOr(20));
  }

  /** Only active places of that city are listed, with the category and
      featured filters as in the place listing, in rank order; `total`
      counts every such place. */
  lemma CityPlacesSpec(ps: seq<PlaceModel.Place>, city: Id, q: CityPlacesQuery,
                       ratingLe: (PlaceModel.Rating, PlaceModel.Rating) -> bool)
    requires Seqs.TotalPreorder(ratingLe)
    requires CityPlacesListing(ps, city, q, ratingLe).Ok?
    ensures var page := CityPlacesListing(ps, city, q, ratingLe).value;
      && (forall p :: p in page.items ==>
            && p in ps && p.status == "active" && p.city == Some(city)
            && (Given(q.category) ==> p.category == q.category)
            && (q.featured == Some("true") ==> p.featured))
      && page.pagination.total ==
           |Seqs.Positions(ps, (p: PlaceModel.Place) => PlaceRoutes.PlaceMatches(CityPlacesFilter(city, q), NoPattern, p))|
      && Seqs.SortedBy(page.items, PlaceRoutes.RankedBefore(ratingLe))
  {
    var f := CityPlacesFilter(city, q);
    var selected := PlaceRoutes.Select(ps, f, NoPattern);
    var page := q.page.GetOr(1);
    var limit := q.limit.GetOr(20);
    Paging.PageItemsFrom(selected, PlaceRoutes.RankedBefore(ratingLe), page, limit);
    Paging.PageTotal(selected, PlaceRoutes.RankedBefore(ratingLe), page, limit);
    Seqs.FilterLength(ps, (p: PlaceModel.Place) => PlaceRoutes.PlaceMatches(f, NoPattern, p));
    PlaceRoutes.RankedBeforeTotalPreorder(ratingLe);
    Paging.PageSorted(selected, PlaceRoutes.RankedBefore(ratingLe), page, limit);
  }

  // ---------------------------------------------------------------------
  // Statistics

  datatype CityStatistics = CityStatistics(totalPlaces: nat, totalReviews: nat)

  /** `GET /:id/stats` as written: the handler refers to `Review`, which the
      file never imports, so the review count's ReferenceError always lands
      in the catch block. */
  function CityStatsAsWritten(ps: seq<PlaceModel.Place>, rs: seq<ReviewModel.Review>, city: Id): (r: Result<CityStatistics>)
    ensures r == Err(ServerError)
  {
    Err(ServerError)
  }

  /** The places counted: `{ city: id, status: 'active' }`. */
  function ActivePlaceOf(city: Id): PlaceModel.Place -> bool {
    (p: PlaceModel.Place) => p.city == Some(city) && p.status == "active"
  }

  /** The reviews counted: `{ place: { $in: <the ids of every place in the
      city, whatever its status> } }`. */
  function ReviewOfCity(ps: seq<PlaceModel.Place>, city: Id): ReviewModel.Review -> bool {
    (x: ReviewModel.Review) => exists i :: 0 <= i < |ps| && ps[i].city == Some(city) && ps[i].id == x.place
  }

  /** `GET /:id/stats` with `Review` in scope: the number of active places
      of the city, and the number of reviews of any of its places. */
  function CityStats(ps: seq<PlaceModel.Place>, rs: seq<ReviewModel.Review>, city: Id): (r: Result<CityStatistics>)
    ensures r.Ok?
    ensures r.value.totalPlaces == |Seqs.Positions(ps, ActivePlaceOf(city))|
    ensures r.value.totalReviews == |Seqs.Positions(rs, ReviewOfCity(ps, city))|
  {
    Seqs.FilterLength(ps, ActivePlaceOf(city));
    Seqs.FilterLength(rs, ReviewOfCity(ps, city));
    Ok(CityStatistics(|Seqs.Filter(ps, ActivePlaceOf(city))|, |Seqs.Filter(rs, ReviewOfCity(ps, city))|))
  }

  /** Every request to the statistics route fails as written, although the
      intended computation always succeeds. */
  lemma CityStatsAlwaysFails(ps: seq<PlaceModel.Place>, rs: seq<ReviewModel.Review>, city: Id)
    ensures CityStatsAsWritten(ps, rs, city).Err? && CityStats(ps, rs, city).Ok?
  {
  }
}
