/** The moderation tables of the admin pages
    (client/src/pages/admin/AdminPlaces.js, AdminReviews.js, AdminCities.js):
    which fetched rows a search term and status filter keep, which status
    actions each row offers, and the confirmation in front of a city delete.
    The rows are the admin listings with their references populated; a
    reference to a deleted record populates to null. */
module AdminPages {
  import opened Common
  import Text
  import Seqs

  datatype PlaceRow = PlaceRow(id: Id, name: string, cityName: Option<string>, status: string)

  datatype ReviewRow = ReviewRow(id: Id, placeName: Option<string>, userName: Option<string>, status: string)

  datatype CityRow = CityRow(id: Id, name: string, state: string, country: string)

  /** `!statusFilter || status === statusFilter`. */
  predicate MatchesStatus(status: string, statusFilter: string) {
    statusFilter == "" || status == statusFilter
  }

  /** `value?.toLowerCase().includes(term.toLowerCase())`; a missing value
      matches nothing. */
  predicate MatchesOptional(value: Option<string>, term: string) {
    value.Some? && Text.ContainsIgnoringCase(value.value, term)
  }

  predicate PlaceKept(term: string, statusFilter: string, p: PlaceRow) {
    && (Text.ContainsIgnoringCase(p.name, term) || MatchesOptional(p.cityName, term))
    && MatchesStatus(p.status, statusFilter)
  }

  predicate ReviewKept(term: string, statusFilter: string, r: ReviewRow) {
    && (MatchesOptional(r.placeName, term) || MatchesOptional(r.userName, term))
    && MatchesStatus(r.status, statusFilter)
  }

  predicate CityKept(term: string, c: CityRow) {
    || Text.ContainsIgnoringCase(c.name, term)
    || Text.ContainsIgnoringCase(c.state, term)
    || Text.ContainsIgnoringCase(c.country, term)
  }

  function PlaceKeptBy(term: string, statusFilter: string): PlaceRow -> bool {
    (p: PlaceRow) => PlaceKept(term, statusFilter, p)
  }

  function ReviewKeptBy(term: string, statusFilter: string): ReviewRow -> bool {
    (r: ReviewRow) => ReviewKept(term, statusFilter, r)
  }

  function CityKeptBy(term: string): CityRow -> bool {
    (c: CityRow) => CityKept(term, c)
  }

  /** `filteredPlaces`: the fetched places the search and status filter
      keep, in fetched order; before the data arrives, no rows. */
  function FilteredPlaces(data: Option<seq<PlaceRow>>, term: string, statusFilter: string): (r: seq<PlaceRow>)
    ensures data.None? ==> r == []
    ensures data.Some? ==> forall p :: p in r <==> p in data.value && PlaceKept(term, statusFilter, p)
  {
    if data.None? then [] else Seqs.Filter(data.value, PlaceKeptBy(term, statusFilter))
  }

  /** `filteredReviews`, likewise. */
  function FilteredReviews(data: Option<seq<ReviewRow>>, term: string, statusFilter: string): (r: seq<ReviewRow>)
    ensures data.None? ==> r == []
    ensures data.Some? ==> forall x :: x in r <==> x in data.value && ReviewKept(term, statusFilter, x)
  {
    if data.None? then [] else Seqs.Filter(data.value, ReviewKeptBy(term, statusFilter))
  }

  /** `filteredCities`: a search over name, state and country, with no
      status filter. */
  function FilteredCities(data: Option<seq<CityRow>>, term: string): (r: seq<CityRow>)
    ensures data.None? ==> r == []
    ensures data.Some? ==> forall c :: c in r <==> c in data.value && CityKept(term, c)
  {
    if data.None? then [] else Seqs.Filter(data.value, CityKeptBy(term))
  }

  /** Each table shows an order-preserving sub-list of the fetched rows. */
  lemma FilteredAreSublists(places: seq<PlaceRow>, reviews: seq<ReviewRow>, cities: seq<CityRow>,
                            term: string, statusFilter: string)
    ensures Seqs.IsSubsequence(FilteredPlaces(Some(places), term, statusFilter), places)
    ensures Seqs.IsSubsequence(FilteredReviews(Some(reviews), term, statusFilter), reviews)
    ensures Seqs.IsSubsequence(FilteredCities(Some(cities), term), cities)
  {
    Seqs.FilterIsSubsequence(places, PlaceKeptBy(term, statusFilter));
    Seqs.FilterIsSubsequence(reviews, ReviewKeptBy(term, statusFilter));
    Seqs.FilterIsSubsequence(cities, CityKeptBy(term));
  }

  lemma EmptyTermMatches(s: string)
    ensures Text.ContainsIgnoringCase(s, "")
  {
    assert Text.ToLower("") == "";
    Text.ContainsEmpty(Text.ToLower(s));
  }

  /** With an empty search and no status filter every fetched place and city
      is shown. Reviews are not: one whose place and author were both
      deleted has nothing for the search to match. */
  lemma EmptyFiltersKeepAll(places: seq<PlaceRow>, cities: seq<CityRow>)
    ensures FilteredPlaces(Some(places), "", "") == places
    ensures FilteredCities(Some(cities), "") == cities
  {
    forall i | 0 <= i < |places| ensures PlaceKeptBy("", "")(places[i]) {
      EmptyTermMatches(places[i].name);
    }
    Seqs.FilterAll(places, PlaceKeptBy("", ""));
    forall i | 0 <= i < |cities| ensures CityKeptBy("")(cities[i]) {
      EmptyTermMatches(cities[i].name);
    }
    Seqs.FilterAll(cities, CityKeptBy(""));
  }

  /** A non-empty status filter shows only rows with exactly that status. */
  lemma StatusFilterExact(places: seq<PlaceRow>, reviews: seq<ReviewRow>, term: string, statusFilter: string)
    requires statusFilter != ""
    ensures forall p :: p in FilteredPlaces(Some(places), term, statusFilter) ==> p.status == statusFilter
    ensures forall r :: r in FilteredReviews(Some(reviews), term, statusFilter) ==> r.status == statusFilter
  {
  }

  /** The status buttons of a row: Approve (`active`) and a second button
      that sets `inactive`, offered only while the row is in the status
      `offeredOn`. */
  function StatusActions(status: string, offeredOn: string): (r: seq<string>)
    ensures r != [] <==> status == offeredOn
    ensures forall s :: s in r ==> s == "active" || s == "inactive"
  {
    if status == offeredOn then ["active", "inactive"] else []
  }

  /** Approve and Reject, on pending places only. */
  function PlaceActions(p: PlaceRow): seq<string> {
    StatusActions(p.status, "pending")
  }

  /** Approve and Remove, on reported reviews only. */
  function ReviewActions(r: ReviewRow): seq<string> {
    StatusActions(r.status, "reported")
  }

  /** The buttons appear exactly on pending places and on reported reviews,
      and every action leaves that state, so after one round trip the row
      offers no action any more. */
  lemma ActionsSettle(p: PlaceRow, r: ReviewRow)
    ensures PlaceActions(p) != [] <==> p.status == "pending"
    ensures ReviewActions(r) != [] <==> r.status == "reported"
    ensures forall s :: s in PlaceActions(p) ==> PlaceActions(p.(status := s)) == []
    ensures forall s :: s in ReviewActions(r) ==> ReviewActions(r.(status := s)) == []
  {
  }

  /** `handleDeleteCity`: the delete request goes out only when the
      confirmation dialog returns true. */
  function DeleteRequest(confirmed: bool, cityId: Id): (r: Option<Id>)
    ensures r.Some? <==> confirmed
    ensures r.Some? ==> r.value == cityId
  {
    if confirmed then Some(cityId) else None
  }
}
