/** The `/api/places` routes (server/routes/places.js): the lookup lists,
    the public listing with its filters and pagination, single place and
    review reads, place submission and review submission with the rating
    recompute. */
module PlaceRoutes {
  import opened Common
  import Text
  import Seqs
  import Paging
  import CityModel
  import opened PlaceModel
  import opened ReviewModel
  import RatingAggregate
  import Database

  predicate ActivePlace(p: Place) {
    p.status == "active"
  }

  predicate ActiveCity(c: CityModel.City) {
    c.status == "active"
  }

  // ---------------------------------------------------------------------
  // Lookup lists

  /** The `category` of each place that has one, in stored order. */
  function CategoryValues(ps: seq<Place>): (r: seq<string>)
    ensures forall x :: x in r <==> exists i :: 0 <= i < |ps| && ps[i].category == Some(x)
  {
    if ps == [] then []
    else
      var init := ps[..|ps| - 1];
      var last := ps[|ps| - 1];
      assert forall i :: 0 <= i < |init| ==> init[i] == ps[i];
      if last.category.Some? then CategoryValues(init) + [last.category.value]
      else CategoryValues(init)
  }

  /** `GET /categories`: `Place.distinct('category', { status: 'active' })`. */
  function Categories(ps: seq<Place>): seq<string> {
    Seqs.Distinct(CategoryValues(Seqs.Filter(ps, ActivePlace)))
  }

  /** Each category of an active place is listed exactly once, and nothing
      else is. */
  lemma CategoriesSpec(ps: seq<Place>)
    ensures Seqs.NoDuplicates(Categories(ps))
    ensures forall x :: x in Categories(ps) <==>
      exists i :: 0 <= i < |ps| && ps[i].status == "active" && ps[i].category == Some(x)
  {
    var active := Seqs.Filter(ps, ActivePlace);
    forall x ensures x in Categories(ps) <==>
      exists i :: 0 <= i < |ps| && ps[i].status == "active" && ps[i].category == Some(x)
    {
      if x in Categories(ps) {
        var j :| 0 <= j < |active| && active[j].category == Some(x);
        assert active[j] in ps;
        var i :| 0 <= i < |ps| && ps[i] == active[j];
      }
      if exists i :: 0 <= i < |ps| && ps[i].status == "active" && ps[i].category == Some(x) {
        var i :| 0 <= i < |ps| && ps[i].status == "active" && ps[i].category == Some(x);
        assert ps[i] in active;
        var j :| 0 <= j < |active| && active[j] == ps[i];
      }
    }
  }

  /** `Place.distinct('category')` over every place, whatever its status:
      the list the category validator of place submission checks against. */
  function AllCategories(ps: seq<Place>): seq<string> {
    Seqs.Distinct(CategoryValues(ps))
  }

  /** `GET /cities`: the active cities, by name. */
  function CitiesForFilter(cs: seq<CityModel.City>): (r: seq<CityModel.City>)
    ensures forall c :: c in r <==> c in cs && c.status == "active"
    ensures multiset(r) == multiset(Seqs.Filter(cs, ActiveCity))
    ensures Seqs.SortedBy(r, CityModel.ByName)
  {
    var active := Seqs.Filter(cs, ActiveCity);
    var r := Seqs.SortBy(active, CityModel.ByName);
    CityModel.ByNameTotalPreorder();
    Seqs.SortBySorted(active, CityModel.ByName);
    assert forall c :: c in r <==> c in multiset(r);
    assert forall c :: c in active <==> c in multiset(active);
    r
  }

  // ---------------------------------------------------------------------
  // Public listing

  /** The query string of `GET /`; None stands for an absent parameter. */
  datatype ListQuery = ListQuery(
    city: Option<string>,
    category: Option<string>,
    featured: Option<string>,
    search: Option<string>,
    pincode: Option<string>,
    minRating: Option<real>,
    limit: Option<int>,
    page: Option<int>)

  /** The `query` object handed to `Place.find`, beyond its fixed
      `status: 'active'`. */
  datatype PlaceFilter = PlaceFilter(
    city: Option<Id>,
    category: Option<string>,
    featuredOnly: bool,
    search: Option<string>,
    pincode: Option<string>,
    minRating: Option<real>)

  /** `{ $regex: pattern, $options: 'i' }` tested against a value; the
      pattern language is not modelled. */
  type Matcher = (string, string) -> bool

  /** A regular expression on a field that may be missing: a missing field
      never matches. */
  predicate MatchesField(matches: Matcher, pattern: string, field: Option<string>) {
    field.Some? && matches(pattern, field.value)
  }

  /** A place is selected by the filter. */
  predicate PlaceMatches(f: PlaceFilter, matches: Matcher, p: Place) {
    && p.status == "active"
    && (f.city.Some? ==> p.city == f.city)
    && (f.category.Some? ==> p.category == f.category)
    && (f.featuredOnly ==> p.featured)
    && (f.search.Some? ==>
          || matches(f.search.value, p.name)
          || matches(f.search.value, p.description)
          || MatchesField(matches, f.search.value, p.address.area)
          || MatchesField(matches, f.search.value, p.address.street))
    && (f.pincode.Some? ==> MatchesField(matches, f.pincode.value, p.address.pincode))
    && (f.minRating.Some? ==> p.rating.average >= f.minRating.value)
  }

  /** The filter the listing builds: each parameter adds its condition only
      when it is truthy, `featured` only when it is exactly "true". A city
      parameter that is not an ObjectId (`parseId` gives None) makes the
      query's cast fail. */
  function FilterOf(q: ListQuery, parseId: string -> Option<Id>): Result<PlaceFilter> {
    if Given(q.city) && parseId(q.city.value).None? then Err(ServerError)
    else Ok(PlaceFilter(
      if Given(q.city) then parseId(q.city.value) else None,
      if Given(q.category) then q.category else None,
      q.featured == Some("true"),
      if Given(q.search) then q.search else None,
      if Given(q.pincode) then q.pincode else None,
      q.minRating))
  }

  /** The `query` object, built one field at a time as the handler does. */
  method BuildPlaceQuery(q: ListQuery, parseId: string -> Option<Id>) returns (r: Result<PlaceFilter>)
    ensures r == FilterOf(q, parseId)
  {
    var f := PlaceFilter(None, None, false, None, None, None);
    if Given(q.city) {
      var id := parseId(q.city.value);
      if id.None? {
        return Err(ServerError);
      }
      f := f.(city := id);
    }
    if Given(q.category) {
      f := f.(category := q.category);
    }
    if q.featured == Some("true") {
      f := f.(featuredOnly := true);
    }
    if Given(q.search) {
      f := f.(search := q.search);
    }
    if Given(q.pincode) {
      f := f.(pincode := q.pincode);
    }
    if q.minRating.Some? {
      f := f.(minRating := q.minRating);
    }
    r := Ok(f);
  }

  /** A listed place is active and passes every supplied filter, conjoined;
      a parameter that is absent or empty filters nothing, and `featured`
      filters only when it is exactly "true". */
  lemma FilterOfMeaning(q: ListQuery, parseId: string -> Option<Id>, matches: Matcher, p: Place)
    requires FilterOf(q, parseId).Ok?
    ensures PlaceMatches(FilterOf(q, parseId).value, matches, p) <==>
      && p.status == "active"
      && (Given(q.city) ==> p.city.Some? && p.city == parseId(q.city.value))
      && (Given(q.category) ==> p.category == q.category)
      && (q.featured == Some("true") ==> p.featured)
      && (Given(q.search) ==>
            || matches(q.search.value, p.name)
            || matches(q.search.value, p.description)
            || MatchesField(matches, q.search.value, p.address.area)
            || MatchesField(matches, q.search.value, p.address.street))
      && (Given(q.pincode) ==> MatchesField(matches, q.pincode.value, p.address.pincode))
      && (q.minRating.Some? ==> p.rating.average >= q.minRating.value)
  {
  }

  /** A `featured` parameter other than "true" selects the same places as no
      parameter at all. */
  lemma FeaturedOnlyWhenTrue(q: ListQuery, parseId: string -> Option<Id>)
    requires q.featured != Some("true")
    ensures FilterOf(q, parseId) == FilterOf(q.(featured := None), parseId)
  {
  }

  /** The places the filter selects, in stored order. */
  function Select(ps: seq<Place>, f: PlaceFilter, matches: Matcher): seq<Place> {
    Seqs.Filter(ps, (p: Place) => PlaceMatches(f, matches, p))
  }

  /** The sort `{ rating: -1, createdAt: -1 }`: higher rated first under the
      store's order `ratingLe` on the embedded rating documents, then newer
      first. */
  function RankedBefore(ratingLe: (Rating, Rating) -> bool): (Place, Place) -> bool {
    (a: Place, b: Place) =>
      ratingLe(b.rating, a.rating) && (ratingLe(a.rating, b.rating) ==> a.createdAt >= b.createdAt)
  }

  lemma RankedBeforeTotalPreorder(ratingLe: (Rating, Rating) -> bool)
    requires Seqs.TotalPreorder(ratingLe)
    ensures Seqs.TotalPreorder(RankedBefore(ratingLe))
  {
    var before := RankedBefore(ratingLe);
    forall a: Place, b: Place ensures before(a, b) || before(b, a) {
      assert ratingLe(a.rating, b.rating) || ratingLe(b.rating, a.rating);
    }
    forall a: Place, b: Place, c: Place | before(a, b) && before(b, c) ensures before(a, c) {
      assert ratingLe(c.rating, a.rating) by {
        assert ratingLe(c.rating, b.rating) && ratingLe(b.rating, a.rating);
      }
      if ratingLe(a.rating, c.rating) {
        assert ratingLe(a.rating, b.rating) by {
          assert ratingLe(a.rating, c.rating) && ratingLe(c.rating, b.rating);
        }
        assert ratingLe(b.rating, c.rating) by {
          assert ratingLe(b.rating, a.rating) && ratingLe(a.rating, c.rating);
        }
      }
    }
  }

  /** The response of `GET /`: the filtered places in rank order, paged. */
  function Listing(ps: seq<Place>, q: ListQuery, parseId: string -> Option<Id>, matches: Matcher,
                   ratingLe: (Rating, Rating) -> bool): Result<Paging.Page<Place>>
  {
    match FilterOf(q, parseId)
    case Err(e) => Err(e)
    case Ok(f) =>
      Paging.Paginate(Seqs.SortBy(Select(ps, f, matches), RankedBefore(ratingLe)),
                      q.page.GetOr(1), q.limit.GetOr(20))
  }

  /** `GET /`: builds the query, then finds, sorts and pages. */
  method ListPlaces(ps: seq<Place>, q: ListQuery, parseId: string -> Option<Id>, matches: Matcher,
                    ratingLe: (Rating, Rating) -> bool) returns (r: Result<Paging.Page<Place>>)
    ensures r == Listing(ps, q, parseId, matches, ratingLe)
  {
    var f := BuildPlaceQuery(q, parseId);
    if f.Err? {
      return Err(f.failure);
    }
    var selected := Select(ps, f.value, matches);
    var sorted := Seqs.SortBy(selected, RankedBefore(ratingLe));
    r := Paging.Paginate(sorted, q.page.GetOr(1), q.limit.GetOr(20));
  }

  /** Every listed place is a stored active place that passes the filter,
      `total` is the number of stored places that pass it, and the page
      holds at most |limit| of them in rank order. */
  lemma ListingSpec(ps: seq<Place>, q: ListQuery, parseId: string -> Option<Id>, matches: Matcher,
                    ratingLe: (Rating, Rating) -> bool)
    requires Seqs.TotalPreorder(ratingLe)
    requires Listing(ps, q, parseId, matches, ratingLe).Ok?
    ensures var f := FilterOf(q, parseId).value;
      var page := Listing(ps, q, parseId, matches, ratingLe).value;
      && (forall p :: p in page.items ==> p in ps && p.status == "active" && PlaceMatches(f, matches, p))
      && page.pagination.total == |Seqs.Positions(ps, (p: Place) => PlaceMatches(f, matches, p))|
      && Seqs.SortedBy(page.items, RankedBefore(ratingLe))
  {
    var f := FilterOf(q, parseId).value;
    var selected := Select(ps, f, matches);
    var page := q.page.GetOr(1);
    var limit := q.limit.GetOr(20);
    Paging.PageItemsFrom(selected, RankedBefore(ratingLe), page, limit);
    Paging.PageTotal(selected, RankedBefore(ratingLe), page, limit);
    Seqs.FilterLength(ps, (p: Place) => PlaceMatches(f, matches, p));
    RankedBeforeTotalPreorder(ratingLe);
    Paging.PageSorted(selected, RankedBefore(ratingLe), page, limit);
  }

  // ---------------------------------------------------------------------
  // Single place and its reviews

  /** `GET /:id`: the place with that id, whatever its status. */
  function GetPlace(ps: seq<Place>, id: Id): (r: Result<Place>)
    ensures r.Ok? <==> exists i :: 0 <= i < |ps| && ps[i].id == id
    ensures r.Ok? ==> r.value in ps && r.value.id == id
    ensures r.Err? ==> r.failure == NotFound
  {
    match Database.Find(ps, Database.PlaceKey, id)
    case None => Err(NotFound)
    case Some(k) => Ok(ps[k])
  }

  /** The sort `{ createdAt: -1 }`. */
  predicate NewerFirst(a: Review, b: Review) {
    a.createdAt >= b.createdAt
  }

  /** `GET /:id/reviews`: the place's active reviews, newest first, paged.
      An unknown place gives an empty page, never a 404. */
  function PlaceReviews(rs: seq<Review>, place: Id, limit: Option<int>, page: Option<int>): (r: Result<Paging.Page<Review>>)
    ensures r.Err? <==> (page.GetOr(1) - 1) * limit.GetOr(10) < 0
    ensures r.Err? ==> r.failure == ServerError
    ensures r.Ok? ==> r.value.pagination.total == |Seqs.Positions(rs, RatingAggregate.ActiveOf(place))|
    ensures r.Ok? ==> r.value.pagination == Paging.Pagination(page.GetOr(1),
      Paging.PageCount(r.value.pagination.total, limit.GetOr(10)), r.value.pagination.total)
    ensures r.Ok? && limit.None? ==> |r.value.items| <= 10
    ensures r.Ok? ==>
      |r.value.items| == Paging.PageLength(r.value.pagination.total, (page.GetOr(1) - 1) * limit.GetOr(10), limit.GetOr(10))
    ensures r.Ok? ==> forall i :: 0 <= i < |r.value.items| ==>
      var newest := Seqs.SortBy(RatingAggregate.ActiveReviews(rs, place), NewerFirst);
      (page.GetOr(1) - 1) * limit.GetOr(10) + i < |newest| &&
      r.value.items[i] == newest[(page.GetOr(1) - 1) * limit.GetOr(10) + i]
    ensures r.Ok? ==> forall x :: x in r.value.items ==> x in rs && x.place == place && x.status == "active"
    ensures r.Ok? ==> forall i, j :: 0 <= i < j < |r.value.items| ==>
      r.value.items[i].createdAt >= r.value.items[j].createdAt
  {
    var r := Paging.Paginate(Seqs.SortBy(RatingAggregate.ActiveReviews(rs, place), NewerFirst), page.GetOr(1), limit.GetOr(10));
    if r.Err? then r
    else
      ReviewsPage(rs, place, page.GetOr(1), limit.GetOr(10));
      r
  }

  /** What a page of the newest-first active reviews holds. */
  lemma ReviewsPage(rs: seq<Review>, place: Id, page: int, limit: int)
    requires Paging.Paginate(Seqs.SortBy(RatingAggregate.ActiveReviews(rs, place), NewerFirst), page, limit).Ok?
    ensures var p := Paging.Paginate(Seqs.SortBy(RatingAggregate.ActiveReviews(rs, place), NewerFirst), page, limit).value;
      && p.pagination.total == |Seqs.Positions(rs, RatingAggregate.ActiveOf(place))|
      && (forall x :: x in p.items ==> x in rs && x.place == place && x.status == "active")
      && (forall i, j :: 0 <= i < j < |p.items| ==> p.items[i].createdAt >= p.items[j].createdAt)
  {
    var active := RatingAggregate.ActiveReviews(rs, place);
    Seqs.FilterLength(rs, RatingAggregate.ActiveOf(place));
    assert Seqs.TotalPreorder(NewerFirst);
    Paging.PageItemsFrom(active, NewerFirst, page, limit);
    Paging.PageTotal(active, NewerFirst, page, limit);
    Paging.PageSorted(active, NewerFirst, page, limit);
  }

  // ---------------------------------------------------------------------
  // Place submission

  /** The category validator: any value while no place has a category yet,
      afterwards only one of the existing categories. */
  predicate CategoryAccepted(category: Option<string>, categories: seq<string>) {
    categories == [] || (category.Some? && category.value in categories)
  }

  /** The body validators of `POST /`, after the trim sanitizers. */
  predicate ValidPlaceBody(body: PlaceInput, categories: seq<string>) {
    && body.name.Some? && |Text.Trim(body.name.value)| >= 2
    && body.description.Some? && |Text.Trim(body.description.value)| >= 10
    && body.city.Some?
    && CategoryAccepted(body.category, categories)
    && body.latitude.Some? && body.longitude.Some?
  }

  /** `{ ...req.body, createdBy: req.user._id, status: 'pending' }`, with name
      and description as the sanitizers left them. */
  function Submission(body: PlaceInput, caller: Caller): PlaceInput {
    body.(
      name := if body.name.Some? then Some(Text.Trim(body.name.value)) else None,
      description := if body.description.Some? then Some(Text.Trim(body.description.value)) else None,
      createdBy := Some(caller.id),
      status := Some("pending"))
  }

  /** A submitted place is pending and owned by the caller whatever the body
      says; every other body field, the rating included, is kept. */
  lemma SubmissionIsPending(body: PlaceInput, caller: Caller, id: Id, now: nat)
    ensures var p := PlaceModel.New(id, Submission(body, caller), now);
      && p.status == "pending"
      && p.createdBy == Some(caller.id)
      && p.city == body.city && p.category == body.category && p.address == body.address
      && p.latitude == body.latitude && p.longitude == body.longitude
      && p.rating.average == body.ratingAverage.GetOr(0.0)
      && p.rating.count == body.ratingCount.GetOr(0)
      && p.featured == body.featured.GetOr(false)
  {
  }

  /** A body that passes the validators saves exactly when it has a
      non-empty category (possible only while no category exists) and any
      rating average it supplies lies in [0, 5]. */
  lemma SubmissionSaves(body: PlaceInput, categories: seq<string>, caller: Caller, id: Id, now: nat)
    requires ValidPlaceBody(body, categories)
    ensures PlaceModel.Valid(PlaceModel.New(id, Submission(body, caller), now)) <==>
      && body.category.Some? && body.category.value != ""
      && (body.ratingAverage.Some? ==> 0.0 <= body.ratingAverage.value <= 5.0)
  {
    var input := Submission(body, caller);
    PlaceModel.NewValidIff(id, input, now);
    Text.TrimIdempotent(body.name.value);
  }

  /** `POST /`: validate the body, then build and save the pending place. */
  method CreatePlace(db: Database.Store, caller: Caller, body: PlaceInput, now: nat) returns (r: Result<Place>)
    requires db.Valid()
    modifies db
    ensures db.Valid()
    ensures db.cities == old(db.cities) && db.users == old(db.users) && db.reviews == old(db.reviews)
    ensures !ValidPlaceBody(body, AllCategories(old(db.places))) ==>
      r == Err(BadRequest) && db.places == old(db.places) && db.nextId == old(db.nextId)
    ensures ValidPlaceBody(body, AllCategories(old(db.places))) ==>
      var p := PlaceModel.New(old(db.nextId), Submission(body, caller), now);
      if PlaceModel.Valid(p) then
        r == Ok(p) && db.places == old(db.places) + [p] && db.nextId == old(db.nextId) + 1
      else
        r == Err(ServerError) && db.places == old(db.places) && db.nextId == old(db.nextId)
  {
    if !ValidPlaceBody(body, AllCategories(db.places)) {
      return Err(BadRequest);
    }
    var p := PlaceModel.New(db.nextId, Submission(body, caller), now);
    if !PlaceModel.Valid(p) {
      return Err(ServerError);
    }
    Database.AppendKeepsKeys(db.places, p, Database.PlaceKey, db.nextId);
    db.places := db.places + [p];
    db.nextId := db.nextId + 1;
    r := Ok(p);
  }

  // ---------------------------------------------------------------------
  // Review submission

  /** The body of `POST /:id/reviews`; `user` and `place` may be supplied
      too, and are overridden. */
  datatype ReviewBody = ReviewBody(
    rating: Option<real>,
    title: Option<string>,
    comment: Option<string>,
    verified: Option<bool>,
    status: Option<string>,
    user: Option<Id>,
    place: Option<Id>)

  /** The body validators: a whole-number rating in [1, 5], a title of at
      least 2 and a comment of at least 10 characters after trimming. */
  predicate ValidReviewBody(b: ReviewBody) {
    && b.rating.Some? && b.rating.value == b.rating.value.Floor as real
    && 1.0 <= b.rating.value <= 5.0
    && b.title.Some? && |Text.Trim(b.title.value)| >= 2
    && b.comment.Some? && |Text.Trim(b.comment.value)| >= 10
  }

  /** `new Review({ ...req.body, user: req.user._id, place: req.params.id })`,
      with title and comment as the sanitizers left them. */
  function ReviewOf(b: ReviewBody, caller: Caller, place: Id, id: Id, now: nat): Review
    requires b.rating.Some? && b.title.Some? && b.comment.Some?
  {
    ReviewModel.New(id, caller.id, place, b.rating.value.Floor, Text.Trim(b.title.value),
                    Text.Trim(b.comment.value), b.verified, b.status, now)
  }

  /** The stored review belongs to the caller and the place in the path
      whatever the body supplies, keeps the body's status and verified flag,
      and passes the schema's validators. */
  lemma ReviewOfSpec(b: ReviewBody, caller: Caller, place: Id, id: Id, now: nat)
    requires ValidReviewBody(b)
    ensures var r := ReviewOf(b, caller, place, id, now);
      && r.user == caller.id && r.place == place
      && r.status == b.status.GetOr("active") && r.verified == b.verified.GetOr(false)
      && r.rating as real == b.rating.value
      && ReviewModel.Valid(r)
  {
    var r := ReviewOf(b, caller, place, id, now);
    var title := Text.Trim(b.title.value);
    Text.TrimIdempotent(b.title.value);
    assert r.title == title && |title| >= 2;
    assert |r.comment| >= 10;
    assert 1 <= r.rating <= 5;
  }

  lemma ValidReviewsInRange(rs: seq<Review>)
    requires forall i :: 0 <= i < |rs| ==> ReviewModel.Valid(rs[i])
    ensures RatingAggregate.RatingsInRange(rs)
  {
  }

  /** Saves a new review that passed the validators and the duplicate
      check, under the next id. */
  method InsertReview(db: Database.Store, review: Review)
    requires db.Valid() && ReviewModel.Valid(review) && review.id == db.nextId
    requires !HasReviewBy(db.reviews, review.user, review.place)
    modifies db
    ensures db.Valid()
    ensures db.reviews == old(db.reviews) + [review] && db.nextId == old(db.nextId) + 1
    ensures db.cities == old(db.cities) && db.users == old(db.users) && db.places == old(db.places)
  {
    ReviewModel.AppendKeepsOnePerUserPlace(db.reviews, review);
    Database.AppendKeepsKeys(db.reviews, review, Database.ReviewKey, db.nextId);
    db.reviews := db.reviews + [review];
    db.nextId := db.nextId + 1;
  }

  /** `Place.findByIdAndUpdate(id, { 'rating.average': .., 'rating.count': .. })`
      for a rating whose average lies in [0, 5]. */
  method StoreRating(db: Database.Store, k: nat, rating: Rating)
    requires db.Valid() && k < |db.places| && 0.0 <= rating.average <= 5.0
    modifies db
    ensures db.Valid()
    ensures db.places == old(db.places)[k := old(db.places)[k].(rating := rating)]
    ensures db.cities == old(db.cities) && db.users == old(db.users) && db.reviews == old(db.reviews)
    ensures db.nextId == old(db.nextId)
  {
    db.places := db.places[k := db.places[k].(rating := rating)];
  }

  /** `POST /:id/reviews`: validate, check the place and the earlier review,
      store the review, then recompute the place's rating from its active
      reviews. When no review of the place is active, the recompute stores a
      NaN average, its cast fails, and the request ends in 500 with the
      review already stored and the rating untouched. */
  method AddReview(db: Database.Store, caller: Caller, place: Id, body: ReviewBody, now: nat) returns (r: Result<Review>)
    requires db.Valid()
    modifies db
    ensures db.Valid()
    ensures db.cities == old(db.cities) && db.users == old(db.users)
    ensures !ValidReviewBody(body) ==> r == Err(BadRequest) && unchanged(db)
    ensures ValidReviewBody(body) && Database.Find(old(db.places), Database.PlaceKey, place).None? ==>
      r == Err(NotFound) && unchanged(db)
    ensures ValidReviewBody(body) && Database.Find(old(db.places), Database.PlaceKey, place).Some? &&
            HasReviewBy(old(db.reviews), caller.id, place) ==>
      r == Err(BadRequest) && unchanged(db)
    ensures ValidReviewBody(body) && Database.Find(old(db.places), Database.PlaceKey, place).Some? &&
            !HasReviewBy(old(db.reviews), caller.id, place) ==>
      var review := ReviewOf(body, caller, place, old(db.nextId), now);
      var k := Database.Find(old(db.places), Database.PlaceKey, place).value;
      && db.reviews == old(db.reviews) + [review]
      && db.nextId == old(db.nextId) + 1
      && match RatingAggregate.Recompute(db.reviews, place)
         case None => r == Err(ServerError) && db.places == old(db.places)
         case Some(rating) =>
           && r == Ok(review)
           && db.places == old(db.places)[k := old(db.places)[k].(rating := rating)]
           && db.places[k].rating.count == |Seqs.Positions(db.reviews, RatingAggregate.ActiveOf(place))|
  {
    if !ValidReviewBody(body) {
      return Err(BadRequest);
    }
    var found := Database.Find(db.places, Database.PlaceKey, place);
    if found.None? {
      return Err(NotFound);
    }
    if HasReviewBy(db.reviews, caller.id, place) {
      return Err(BadRequest);
    }
    var review := ReviewOf(body, caller, place, db.nextId, now);
    ReviewOfSpec(body, caller, place, db.nextId, now);
    InsertReview(db, review);

    var rating := RatingAggregate.Recompute(db.reviews, place);
    if rating.None? {
      return Err(ServerError);
    }
    ValidReviewsInRange(db.reviews);
    RatingAggregate.RecomputeBounds(db.reviews, place);
    RatingAggregate.RecomputeMeaning(db.reviews, place);
    StoreRating(db, found.value, rating.value);
    r := Ok(review);
  }
}
