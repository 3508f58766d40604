/** The Place record (server/models/Place.js): fields, defaults and the
    validators run by `save`, including the bounds on `rating.average`. */
module PlaceModel {
  import opened Common
  import Text

  /** The cached rating: the mean of the active reviews (as a decimal) and
      how many there are. */
  datatype Rating = Rating(average: real, count: int)

  const DefaultRating := Rating(0.0, 0)

  datatype Address = Address(street: Option<string>, area: Option<string>, pincode: Option<string>)

  datatype Place = Place(
    id: Id,
    name: string,
    description: string,
    city: Option<Id>,
    category: Option<string>,
    address: Address,
    latitude: Option<real>,
    longitude: Option<real>,
    rating: Rating,
    featured: bool,
    status: string,
    createdBy: Option<Id>,
    createdAt: nat)

  /** Place fields as a request body supplies them; an absent field is None.
      `rating` may be supplied in part, so its two members are separate. */
  datatype PlaceInput = PlaceInput(
    name: Option<string>,
    description: Option<string>,
    city: Option<Id>,
    category: Option<string>,
    address: Address,
    latitude: Option<real>,
    longitude: Option<real>,
    ratingAverage: Option<real>,
    ratingCount: Option<int>,
    featured: Option<bool>,
    status: Option<string>,
    createdBy: Option<Id>)

  const DefaultStatus := "pending"

  /** `new Place(input)`: the `trim` setter on name and the schema defaults. */
  function New(id: Id, input: PlaceInput, now: nat): Place {
    Place(
      id,
      Text.Trim(input.name.GetOr("")),
      input.description.GetOr(""),
      input.city,
      input.category,
      input.address,
      input.latitude,
      input.longitude,
      Rating(input.ratingAverage.GetOr(DefaultRating.average), input.ratingCount.GetOr(DefaultRating.count)),
      input.featured.GetOr(false),
      input.status.GetOr(DefaultStatus),
      input.createdBy,
      now)
  }

  /** The schema's validators: the required fields, and `rating.average`
      within [0, 5]. `rating.count` and `status` are unconstrained. */
  predicate Valid(p: Place) {
    && p.name != ""
    && p.description != ""
    && p.city.Some?
    && p.category.Some? && p.category.value != ""
    && p.latitude.Some?
    && p.longitude.Some?
    && 0.0 <= p.rating.average <= 5.0
  }

  /** A new place is pending, not featured and rated {0, 0} unless the input
      says otherwise; supplied values are kept. */
  lemma NewDefaults(id: Id, input: PlaceInput, now: nat)
    ensures var p := New(id, input, now);
      && p.status == (if input.status.Some? then input.status.value else "pending")
      && p.featured == (input.featured.Some? && input.featured.value)
      && p.rating.average == (if input.ratingAverage.Some? then input.ratingAverage.value else 0.0)
      && p.rating.count == (if input.ratingCount.Some? then input.ratingCount.value else 0)
      && p.createdBy == input.createdBy
  {
  }

  /** A new place passes validation exactly when name, description, city,
      category and both coordinates are present and the supplied average, if
      any, lies in [0, 5]. */
  lemma NewValidIff(id: Id, input: PlaceInput, now: nat)
    ensures Valid(New(id, input, now)) <==>
      && input.name.Some? && Text.Trim(input.name.value) != ""
      && input.description.Some? && input.description.value != ""
      && input.city.Some?
      && input.category.Some? && input.category.value != ""
      && input.latitude.Some? && input.longitude.Some?
      && (input.ratingAverage.Some? ==> 0.0 <= input.ratingAverage.value <= 5.0)
  {
    assert Text.Trim("") == "";
  }
}
