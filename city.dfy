/** The City record (server/models/City.js): its fields, the defaults applied
    when a document is built, and the validators run by `save`. */
module CityModel {
  import opened Common
  import Text
  import Seqs

  datatype City = City(
    id: Id,
    name: string,
    description: string,
    state: string,
    country: string,
    latitude: Option<real>,
    longitude: Option<real>,
    population: Option<int>,
    foundedYear: Option<int>,
    featured: bool,
    status: string,
    createdAt: nat)

  /** City fields as a request body supplies them; an absent field is None.
      Used both to build a new document and as an update. */
  datatype CityInput = CityInput(
    name: Option<string>,
    description: Option<string>,
    state: Option<string>,
    country: Option<string>,
    latitude: Option<real>,
    longitude: Option<real>,
    population: Option<int>,
    foundedYear: Option<int>,
    featured: Option<bool>,
    status: Option<string>)

  const DefaultStatus := "active"

  /** `new City(input)`: the `trim` setters on name, state and country, and the
      defaults featured = false, status = "active". */
  function New(id: Id, input: CityInput, now: nat): City {
    City(
      id,
      Text.Trim(input.name.GetOr("")),
      input.description.GetOr(""),
      Text.Trim(input.state.GetOr("")),
      Text.Trim(input.country.GetOr("")),
      input.latitude,
      input.longitude,
      input.population,
      input.foundedYear,
      input.featured.GetOr(false),
      input.status.GetOr(DefaultStatus),
      now)
  }

  /** The schema's `required` validators: a required string must be non-empty,
      a required number present. `foundedYear` is free. */
  predicate Valid(c: City) {
    && c.name != ""
    && c.description != ""
    && c.state != ""
    && c.country != ""
    && c.latitude.Some?
    && c.longitude.Some?
    && c.population.Some?
  }

  /** A new city is active and not featured unless the input says otherwise,
      and every supplied value is kept. */
  lemma NewDefaults(id: Id, input: CityInput, now: nat)
    ensures var c := New(id, input, now);
      && (input.status.None? ==> c.status == "active")
      && (input.status.Some? ==> c.status == input.status.value)
      && (input.featured.None? ==> !c.featured)
      && (input.featured.Some? ==> c.featured == input.featured.value)
      && c.foundedYear == input.foundedYear
  {
  }

  /** A new city passes validation exactly when every required field is
      present and the required strings are non-blank; `foundedYear` plays no
      part, whatever its value. */
  lemma NewValidIff(id: Id, input: CityInput, now: nat)
    ensures Valid(New(id, input, now)) <==>
      && input.name.Some? && Text.Trim(input.name.value) != ""
      && input.description.Some? && input.description.value != ""
      && input.state.Some? && Text.Trim(input.state.value) != ""
      && input.country.Some? && Text.Trim(input.country.value) != ""
      && input.latitude.Some? && input.longitude.Some? && input.population.Some?
  {
    assert Text.Trim("") == "";
  }

  /** One field of an update: the supplied value, or the stored one. */
  function Overwrite<T>(supplied: Option<T>, stored: T): (r: T)
    ensures supplied.Some? ==> r == supplied.value
    ensures supplied.None? ==> r == stored
  {
    if supplied.Some? then supplied.value else stored
  }

  /** One optional field of an update: a supplied value replaces the stored
      one, an absent one keeps it. */
  function OverwriteOption<T>(supplied: Option<T>, stored: Option<T>): (r: Option<T>)
    ensures supplied.Some? ==> r == supplied
    ensures supplied.None? ==> r == stored
  {
    if supplied.Some? then supplied else stored
  }

  /** A string field with a `trim` setter. */
  function OverwriteTrimmed(supplied: Option<string>, stored: string): (r: string)
    ensures supplied.Some? ==> r == Text.Trim(supplied.value)
    ensures supplied.None? ==> r == stored
  {
    if supplied.Some? then Text.Trim(supplied.value) else stored
  }

  /** `findByIdAndUpdate(id, body)`: every supplied field overwrites the
      stored one (through the same trim setters); no validator runs. */
  function Update(c: City, input: CityInput): (r: City)
    ensures r.id == c.id && r.createdAt == c.createdAt
    ensures input.name.Some? ==> r.name == Text.Trim(input.name.value)
    ensures input.name.None? ==> r.name == c.name
    ensures input.state.Some? ==> r.state == Text.Trim(input.state.value)
    ensures input.state.None? ==> r.state == c.state
    ensures input.country.Some? ==> r.country == Text.Trim(input.country.value)
    ensures input.country.None? ==> r.country == c.country
    ensures input.description.Some? ==> r.description == input.description.value
    ensures input.description.None? ==> r.description == c.description
    ensures input.latitude.Some? ==> r.latitude == input.latitude
    ensures input.latitude.None? ==> r.latitude == c.latitude
    ensures input.longitude.Some? ==> r.longitude == input.longitude
    ensures input.longitude.None? ==> r.longitude == c.longitude
    ensures input.population.Some? ==> r.population == input.population
    ensures input.population.None? ==> r.population == c.population
    ensures input.foundedYear.Some? ==> r.foundedYear == input.foundedYear
    ensures input.foundedYear.None? ==> r.foundedYear == c.foundedYear
    ensures input.featured.Some? ==> r.featured == input.featured.value
    ensures input.featured.None? ==> r.featured == c.featured
    ensures input.status.Some? ==> r.status == input.status.value
    ensures input.status.None? ==> r.status == c.status
    ensures input == CityInput(None, None, None, None, None, None, None, None, None, None) ==> r == c
  {
    City(
      c.id,
      OverwriteTrimmed(input.name, c.name),
      Overwrite(input.description, c.description),
      OverwriteTrimmed(input.state, c.state),
      OverwriteTrimmed(input.country, c.country),
      OverwriteOption(input.latitude, c.latitude),
      OverwriteOption(input.longitude, c.longitude),
      OverwriteOption(input.population, c.population),
      OverwriteOption(input.foundedYear, c.foundedYear),
      Overwrite(input.featured, c.featured),
      Overwrite(input.status, c.status),
      c.createdAt)
  }

  /** The sort `{ name: 1 }`: ascending by name, ties left in any order. */
  predicate ByName(a: City, b: City) {
    Text.LexLe(a.name, b.name)
  }

  lemma ByNameTotalPreorder()
    ensures Seqs.TotalPreorder(ByName)
  {
    forall a, b ensures ByName(a, b) || ByName(b, a) {
      Text.LexLeTotal(a.name, b.name);
    }
    forall a, b, c | ByName(a, b) && ByName(b, c) ensures ByName(a, c) {
      Text.LexLeTransitive(a.name, b.name, c.name);
    }
  }
}
