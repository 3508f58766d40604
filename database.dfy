/** The document store the routes share: one collection per model, each a
    sequence of records in natural (insertion) order, and the source of fresh
    ids. The store's invariant collects the guarantees that the schemas'
    validators and unique indexes give every stored document. */
module Database {
  import opened Common
  import CityModel
  import PlaceModel
  import ReviewModel
  import UserModel
  import Seqs

  function CityKey(c: CityModel.City): Id { c.id }
  function PlaceKey(p: PlaceModel.Place): Id { p.id }
  function ReviewKey(r: ReviewModel.Review): Id { r.id }
  function UserKey(u: UserModel.User): Id { u.id }

  /** No two records share an id, and every id was handed out before `next`. */
  predicate KeysBelow<T>(s: seq<T>, key: T -> Id, next: nat) {
    && (forall i, j :: 0 <= i < j < |s| ==> key(s[i]) != key(s[j]))
    && (forall i :: 0 <= i < |s| ==> key(s[i]) < next)
  }

  /** `findById`: the position of the record with this id. */
  function Find<T>(s: seq<T>, key: T -> Id, id: Id): (r: Option<nat>)
    ensures r.Some? ==> r.value < |s| && key(s[r.value]) == id
    ensures r.Some? ==> forall i :: 0 <= i < r.value ==> key(s[i]) != id
    ensures r.None? ==> forall i :: 0 <= i < |s| ==> key(s[i]) != id
  {
    Seqs.FindIndex(s, x => key(x) == id)
  }

  /** Changing records without changing their ids does not change where an
      id is found. */
  lemma FindSameKeys<T>(s: seq<T>, t: seq<T>, key: T -> Id, id: Id)
    requires |s| == |t| && forall i :: 0 <= i < |s| ==> key(s[i]) == key(t[i])
    ensures Find(s, key, id) == Find(t, key, id)
  {
    var a := Find(s, key, id);
    var b := Find(t, key, id);
    if a.Some? && b.Some? {
      assert !(a.value < b.value) && !(b.value < a.value);
    }
  }

  /** `findByIdAndUpdate(id, ..)`: the record with that id, if any, is
      replaced by `f` of itself; every other record is left alone. */
  function Update<T>(s: seq<T>, key: T -> Id, id: Id, f: T -> T): (r: seq<T>)
    ensures |r| == |s|
    ensures forall i :: 0 <= i < |s| ==> r[i] == if Find(s, key, id) == Some(i) then f(s[i]) else s[i]
  {
    match Find(s, key, id)
    case None => s
    case Some(k) => s[k := f(s[k])]
  }

  /** Applying an idempotent change that keeps ids twice is applying it
      once. */
  lemma UpdateTwice<T>(s: seq<T>, key: T -> Id, id: Id, f: T -> T)
    requires forall i :: 0 <= i < |s| ==> key(f(s[i])) == key(s[i]) && f(f(s[i])) == f(s[i])
    ensures Update(Update(s, key, id, f), key, id, f) == Update(s, key, id, f)
  {
    var once := Update(s, key, id, f);
    FindSameKeys(s, once, key, id);
  }

  /** With unique ids, the record found is the only one carrying the id. */
  lemma FindUnique<T>(s: seq<T>, key: T -> Id, next: nat, id: Id, k: nat)
    requires KeysBelow(s, key, next) && k < |s| && key(s[k]) == id
    ensures Find(s, key, id) == Some(k)
  {
    var r := Find(s, key, id);
    assert r.Some?;
  }

  /** A record appended with the next id keeps the ids unique. */
  lemma AppendKeepsKeys<T>(s: seq<T>, x: T, key: T -> Id, next: nat)
    requires KeysBelow(s, key, next) && key(x) == next
    ensures KeysBelow(s + [x], key, next + 1)
  {
    var s' := s + [x];
    forall i, j | 0 <= i < j < |s'| ensures key(s'[i]) != key(s'[j]) {
      assert s'[i] == s[i];
      if j < |s| {
        assert s'[j] == s[j];
      }
    }
  }

  /** Replacing a record by one with the same id keeps the ids unique. */
  lemma ReplaceKeepsKeys<T>(s: seq<T>, k: nat, x: T, key: T -> Id, next: nat)
    requires KeysBelow(s, key, next) && k < |s| && key(x) == key(s[k])
    ensures KeysBelow(s[k := x], key, next)
  {
  }

  /** Removing a record keeps the ids unique. */
  lemma RemoveKeepsKeys<T>(s: seq<T>, k: nat, key: T -> Id, next: nat)
    requires KeysBelow(s, key, next) && k < |s|
    ensures KeysBelow(s[..k] + s[k + 1..], key, next)
  {
    var s' := s[..k] + s[k + 1..];
    forall i, j | 0 <= i < j < |s'| ensures key(s'[i]) != key(s'[j]) {
      var i' := if i < k then i else i + 1;
      var j' := if j < k then j else j + 1;
      assert s'[i] == s[i'] && s'[j] == s[j'];
    }
    forall i | 0 <= i < |s'| ensures key(s'[i]) < next {
      assert s'[i] == s[if i < k then i else i + 1];
    }
  }

  class Store {
    var cities: seq<CityModel.City>
    var places: seq<PlaceModel.Place>
    var users: seq<UserModel.User>
    var reviews: seq<ReviewModel.Review>
    var nextId: nat

    /** What the schemas guarantee of every stored document: unique ids,
        places and reviews that passed their validators, at most one review
        per (user, place), and users valid and distinct on email, googleId
        and facebookId. Cities are updated without validation, so only their
        ids are constrained. */
    ghost predicate Valid()
      reads this
    {
      && KeysBelow(cities, CityKey, nextId)
      && KeysBelow(places, PlaceKey, nextId)
      && KeysBelow(users, UserKey, nextId)
      && KeysBelow(reviews, ReviewKey, nextId)
      && (forall i :: 0 <= i < |places| ==> PlaceModel.Valid(places[i]))
      && (forall i :: 0 <= i < |reviews| ==> ReviewModel.Valid(reviews[i]))
      && ReviewModel.OnePerUserPlace(reviews)
      && (forall i :: 0 <= i < |users| ==> UserModel.Valid(users[i]))
      && UserModel.UniqueKeys(users)
    }

    constructor()
      ensures Valid()
      ensures cities == [] && places == [] && users == [] && reviews == []
    {
      cities, places, users, reviews := [], [], [], [];
      nextId := 0;
    }
  }
}
