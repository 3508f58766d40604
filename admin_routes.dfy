/** The administration API (server/routes/admin.js). Every route sits behind
    the admin middleware, which lets a request through only for an admin
    caller; the updates go through `findByIdAndUpdate`, which runs no
    validator and leaves the rating cache of the affected place alone. */
module AdminRoutes {
  import opened Common
  import Seqs
  import CityModel
  import PlaceModel
  import ReviewModel
  import UserModel
  import RatingAggregate
  import Database

  datatype DashboardStats = DashboardStats(
    totalCities: nat,
    totalPlaces: nat,
    totalUsers: nat,
    totalReviews: nat,
    pendingPlaces: nat,
    pendingReviews: nat)

  predicate PendingPlace(p: PlaceModel.Place) { p.status == "pending" }

  /** The dashboard counts reported reviews under the name `pendingReviews`. */
  predicate ReportedReview(r: ReviewModel.Review) { r.status == "reported" }

  /** `GET /dashboard`: the size of each collection, the number of places
      awaiting moderation and the number of reviews reported. */
  function Dashboard(caller: Caller, cs: seq<CityModel.City>, ps: seq<PlaceModel.Place>,
                     us: seq<UserModel.User>, rs: seq<ReviewModel.Review>): (r: Result<DashboardStats>)
    ensures r.Err? <==> !IsAdmin(caller)
    ensures r.Err? ==> r.failure == Denied
    ensures r.Ok? ==> && r.value.totalCities == |cs| && r.value.totalPlaces == |ps|
                      && r.value.totalUsers == |us| && r.value.totalReviews == |rs|
    ensures r.Ok? ==> r.value.pendingPlaces == |Seqs.Positions(ps, PendingPlace)|
    ensures r.Ok? ==> r.value.pendingReviews == |Seqs.Positions(rs, ReportedReview)|
  {
    if !IsAdmin(caller) then Err(Denied)
    else
      Seqs.FilterLength(ps, PendingPlace);
      Seqs.FilterLength(rs, ReportedReview);
      Ok(DashboardStats(|cs|, |ps|, |us|, |rs|,
                        |Seqs.Filter(ps, PendingPlace)|, |Seqs.Filter(rs, ReportedReview)|))
  }

  /** The update `{ status }`: an absent status is dropped from the update,
      which then changes nothing. */
  function PlaceStatusChange(status: Option<string>): PlaceModel.Place -> PlaceModel.Place {
    (p: PlaceModel.Place) => p.(status := status.GetOr(p.status))
  }

  function ReviewStatusChange(status: Option<string>): ReviewModel.Review -> ReviewModel.Review {
    (r: ReviewModel.Review) => r.(status := status.GetOr(r.status))
  }

  /** The places after `PUT /places/:id/status`. */
  function WithPlaceStatus(ps: seq<PlaceModel.Place>, id: Id, status: Option<string>): seq<PlaceModel.Place> {
    Database.Update(ps, Database.PlaceKey, id, PlaceStatusChange(status))
  }

  /** The reviews after `PUT /reviews/:id/status`. */
  function WithReviewStatus(rs: seq<ReviewModel.Review>, id: Id, status: Option<string>): seq<ReviewModel.Review> {
    Database.Update(rs, Database.ReviewKey, id, ReviewStatusChange(status))
  }

  /** With unique ids, a status update changes the status of the place with
      that id and nothing else: every other field of it, and every other place, is
      unchanged. */
  lemma PlaceStatusOnly(ps: seq<PlaceModel.Place>, id: Id, status: Option<string>, next: nat)
    requires Database.KeysBelow(ps, Database.PlaceKey, next)
    ensures var r := WithPlaceStatus(ps, id, status);
      && |r| == |ps|
      && (forall i :: 0 <= i < |ps| ==> r[i].(status := ps[i].status) == ps[i])
      && (forall i :: 0 <= i < |ps| && ps[i].id != id ==> r[i] == ps[i])
      && (forall i :: 0 <= i < |ps| && ps[i].id == id && status.Some? ==> r[i].status == status.value)
  {
    var r := WithPlaceStatus(ps, id, status);
    forall i | 0 <= i < |ps| && ps[i].id == id && status.Some? ensures r[i].status == status.value {
      Database.FindUnique(ps, Database.PlaceKey, next, id, i);
    }
  }

  lemma ReviewStatusOnly(rs: seq<ReviewModel.Review>, id: Id, status: Option<string>, next: nat)
    requires Database.KeysBelow(rs, Database.ReviewKey, next)
    ensures var r := WithReviewStatus(rs, id, status);
      && |r| == |rs|
      && (forall i :: 0 <= i < |rs| ==> r[i].(status := rs[i].status) == rs[i])
      && (forall i :: 0 <= i < |rs| && rs[i].id != id ==> r[i] == rs[i])
      && (forall i :: 0 <= i < |rs| && rs[i].id == id && status.Some? ==> r[i].status == status.value)
  {
    var r := WithReviewStatus(rs, id, status);
    forall i | 0 <= i < |rs| && rs[i].id == id && status.Some? ensures r[i].status == status.value {
      Database.FindUnique(rs, Database.ReviewKey, next, id, i);
    }
  }

  /** Setting the same status twice leaves the places as setting it once. */
  lemma PlaceStatusIdempotent(ps: seq<PlaceModel.Place>, id: Id, status: Option<string>)
    ensures WithPlaceStatus(WithPlaceStatus(ps, id, status), id, status) == WithPlaceStatus(ps, id, status)
  {
    Database.UpdateTwice(ps, Database.PlaceKey, id, PlaceStatusChange(status));
  }

  lemma ReviewStatusIdempotent(rs: seq<ReviewModel.Review>, id: Id, status: Option<string>)
    ensures WithReviewStatus(WithReviewStatus(rs, id, status), id, status) == WithReviewStatus(rs, id, status)
  {
    Database.UpdateTwice(rs, Database.ReviewKey, id, ReviewStatusChange(status));
  }

  /** Taking an active review out of the active set lowers the number of its
      place's active reviews by one. The route does not recompute the place's
      cached rating (`SetReviewStatus` keeps the places as they were), so a
      place `ps[j]` whose stored count matched its active reviews before the
      change no longer matches them after it. */
  lemma DeactivatingReviewDrifts(rs: seq<ReviewModel.Review>, ps: seq<PlaceModel.Place>, id: Id, status: string, k: nat, j: nat)
    requires Database.Find(rs, Database.ReviewKey, id) == Some(k)
    requires rs[k].status == "active" && status != "active"
    requires Database.Find(ps, Database.PlaceKey, rs[k].place) == Some(j)
    requires ps[j].rating.count == |Seqs.Positions(rs, RatingAggregate.ActiveOf(rs[k].place))|
    ensures var place := rs[k].place;
      |Seqs.Positions(WithReviewStatus(rs, id, Some(status)), RatingAggregate.ActiveOf(place))|
        == |Seqs.Positions(rs, RatingAggregate.ActiveOf(place))| - 1
    ensures ps[j].id == rs[k].place
    ensures ps[j].rating.count !=
      |Seqs.Positions(WithReviewStatus(rs, id, Some(status)), RatingAggregate.ActiveOf(rs[k].place))|
  {
    var p := RatingAggregate.ActiveOf(rs[k].place);
    var r := WithReviewStatus(rs, id, Some(status));
    var before := Seqs.Positions(rs, p);
    var after := Seqs.Positions(r, p);
    assert k in before;
    forall i: nat ensures i in after <==> i in before - {k} {
      if i < |rs| && i != k {
        assert r[i] == rs[i];
      }
    }
    assert after == before - {k};
  }

  /** A status change keeps every review valid and keeps the (user, place)
      index satisfied: neither field it leaves alone matters to them. */
  lemma ReviewStatusKeepsInvariants(rs: seq<ReviewModel.Review>, id: Id, status: Option<string>, next: nat)
    requires Database.KeysBelow(rs, Database.ReviewKey, next)
    requires forall i :: 0 <= i < |rs| ==> ReviewModel.Valid(rs[i])
    requires ReviewModel.OnePerUserPlace(rs)
    ensures var r := WithReviewStatus(rs, id, status);
      && Database.KeysBelow(r, Database.ReviewKey, next)
      && (forall i :: 0 <= i < |r| ==> ReviewModel.Valid(r[i]))
      && ReviewModel.OnePerUserPlace(r)
  {
    var r := WithReviewStatus(rs, id, status);
    assert forall i :: 0 <= i < |rs| ==> r[i].(status := rs[i].status) == rs[i];
    forall i, j | 0 <= i < j < |r| ensures r[i].user != r[j].user || r[i].place != r[j].place {
      assert r[i].user == rs[i].user && r[i].place == rs[i].place;
      assert r[j].user == rs[j].user && r[j].place == rs[j].place;
    }
  }

  lemma PlaceStatusKeepsInvariants(ps: seq<PlaceModel.Place>, id: Id, status: Option<string>, next: nat)
    requires Database.KeysBelow(ps, Database.PlaceKey, next)
    requires forall i :: 0 <= i < |ps| ==> PlaceModel.Valid(ps[i])
    ensures var r := WithPlaceStatus(ps, id, status);
      && Database.KeysBelow(r, Database.PlaceKey, next)
      && (forall i :: 0 <= i < |r| ==> PlaceModel.Valid(r[i]))
  {
    var r := WithPlaceStatus(ps, id, status);
    assert forall i :: 0 <= i < |ps| ==> r[i].(status := ps[i].status) == ps[i];
  }

  /** `PUT /places/:id/status`. */
  method SetPlaceStatus(db: Database.Store, caller: Caller, id: Id, status: Option<string>)
    returns (r: Result<PlaceModel.Place>)
    requires db.Valid()
    modifies db
    ensures db.Valid()
    ensures db.cities == old(db.cities) && db.users == old(db.users)
    ensures db.reviews == old(db.reviews) && db.nextId == old(db.nextId)
    ensures !IsAdmin(caller) ==> r == Err(Denied) && db.places == old(db.places)
    ensures IsAdmin(caller) && Database.Find(old(db.places), Database.PlaceKey, id).None? ==>
      r == Err(NotFound) && db.places == old(db.places)
    ensures IsAdmin(caller) && Database.Find(old(db.places), Database.PlaceKey, id).Some? ==>
      var k := Database.Find(old(db.places), Database.PlaceKey, id).value;
      && db.places == WithPlaceStatus(old(db.places), id, status)
      && r == Ok(db.places[k])
  {
    if !IsAdmin(caller) {
      return Err(Denied);
    }
    var found := Database.Find(db.places, Database.PlaceKey, id);
    if found.None? {
      return Err(NotFound);
    }
    PlaceStatusKeepsInvariants(db.places, id, status, db.nextId);
    db.places := WithPlaceStatus(db.places, id, status);
    r := Ok(db.places[found.value]);
  }

  /** `PUT /reviews/:id/status`. The places, and so the cached ratings, are
      left as they were. */
  method SetReviewStatus(db: Database.Store, caller: Caller, id: Id, status: Option<string>)
    returns (r: Result<ReviewModel.Review>)
    requires db.Valid()
    modifies db
    ensures db.Valid()
    ensures db.cities == old(db.cities) && db.users == old(db.users)
    ensures db.places == old(db.places) && db.nextId == old(db.nextId)
    ensures !IsAdmin(caller) ==> r == Err(Denied) && db.reviews == old(db.reviews)
    ensures IsAdmin(caller) && Database.Find(old(db.reviews), Database.ReviewKey, id).None? ==>
      r == Err(NotFound) && db.reviews == old(db.reviews)
    ensures IsAdmin(caller) && Database.Find(old(db.reviews), Database.ReviewKey, id).Some? ==>
      var k := Database.Find(old(db.reviews), Database.ReviewKey, id).value;
      && db.reviews == WithReviewStatus(old(db.reviews), id, status)
      && r == Ok(db.reviews[k])
  {
    if !IsAdmin(caller) {
      return Err(Denied);
    }
    var found := Database.Find(db.reviews, Database.ReviewKey, id);
    if found.None? {
      return Err(NotFound);
    }
    ReviewStatusKeepsInvariants(db.reviews, id, status, db.nextId);
    db.reviews := WithReviewStatus(db.reviews, id, status);
    r := Ok(db.reviews[found.value]);
  }

  /** `PUT /users/:id/role`: the role is replaced (no validator runs) and the
      user is returned without its password. */
  method SetUserRole(db: Database.Store, caller: Caller, id: Id, role: Option<string>)
    returns (r: Result<UserModel.User>)
    requires db.Valid()
    modifies db
    ensures db.Valid()
    ensures db.cities == old(db.cities) && db.places == old(db.places)
    ensures db.reviews == old(db.reviews) && db.nextId == old(db.nextId)
    ensures !IsAdmin(caller) ==> r == Err(Denied) && db.users == old(db.users)
    ensures IsAdmin(caller) && Database.Find(old(db.users), Database.UserKey, id).None? ==>
      r == Err(NotFound) && db.users == old(db.users)
    ensures IsAdmin(caller) && Database.Find(old(db.users), Database.UserKey, id).Some? ==>
      var k := Database.Find(old(db.users), Database.UserKey, id).value;
      && db.users == old(db.users)[k := old(db.users)[k].(role := role.GetOr(old(db.users)[k].role))]
      && r == Ok(db.users[k].(password := None))
  {
    if !IsAdmin(caller) {
      return Err(Denied);
    }
    var found := Database.Find(db.users, Database.UserKey, id);
    if found.None? {
      return Err(NotFound);
    }
    var k := found.value;
    var u := db.users[k].(role := role.GetOr(db.users[k].role));
    forall i | 0 <= i < |db.users| && i != k ensures !UserModel.Clash(db.users[i], u) {
      assert !UserModel.Clash(db.users[i], db.users[k]) && !UserModel.Clash(db.users[k], db.users[i]);
    }
    UserModel.ReplaceKeepsUniqueKeys(db.users, k, u);
    Database.ReplaceKeepsKeys(db.users, k, u, Database.UserKey, db.nextId);
    db.users := db.users[k := u];
    r := Ok(u.(password := None));
  }

  /** `POST /cities`: the body becomes a new city, saved when it passes the
      schema's validators and refused with a server error otherwise. */
  method CreateCity(db: Database.Store, caller: Caller, input: CityModel.CityInput, now: nat)
    returns (r: Result<CityModel.City>)
    requires db.Valid()
    modifies db
    ensures db.Valid()
    ensures db.places == old(db.places) && db.users == old(db.users) && db.reviews == old(db.reviews)
    ensures !IsAdmin(caller) ==> r == Err(Denied) && db.cities == old(db.cities) && db.nextId == old(db.nextId)
    ensures IsAdmin(caller) && !CityModel.Valid(CityModel.New(old(db.nextId), input, now)) ==>
      r == Err(ServerError) && db.cities == old(db.cities) && db.nextId == old(db.nextId)
    ensures IsAdmin(caller) && CityModel.Valid(CityModel.New(old(db.nextId), input, now)) ==>
      var c := CityModel.New(old(db.nextId), input, now);
      && r == Ok(c)
      && db.cities == old(db.cities) + [c]
      && db.nextId == old(db.nextId) + 1
  {
    if !IsAdmin(caller) {
      return Err(Denied);
    }
    var c := CityModel.New(db.nextId, input, now);
    if !CityModel.Valid(c) {
      return Err(ServerError);
    }
    Database.AppendKeepsKeys(db.cities, c, Database.CityKey, db.nextId);
    db.cities := db.cities + [c];
    db.nextId := db.nextId + 1;
    r := Ok(c);
  }

  /** `PUT /cities/:id`: every field the body supplies is written, without
      validation. */
  method UpdateCity(db: Database.Store, caller: Caller, id: Id, input: CityModel.CityInput)
    returns (r: Result<CityModel.City>)
    requires db.Valid()
    modifies db
    ensures db.Valid()
    ensures db.places == old(db.places) && db.users == old(db.users)
    ensures db.reviews == old(db.reviews) && db.nextId == old(db.nextId)
    ensures !IsAdmin(caller) ==> r == Err(Denied) && db.cities == old(db.cities)
    ensures IsAdmin(caller) && Database.Find(old(db.cities), Database.CityKey, id).None? ==>
      r == Err(NotFound) && db.cities == old(db.cities)
    ensures IsAdmin(caller) && Database.Find(old(db.cities), Database.CityKey, id).Some? ==>
      var k := Database.Find(old(db.cities), Database.CityKey, id).value;
      && db.cities == old(db.cities)[k := CityModel.Update(old(db.cities)[k], input)]
      && r == Ok(db.cities[k])
  {
    if !IsAdmin(caller) {
      return Err(Denied);
    }
    var found := Database.Find(db.cities, Database.CityKey, id);
    if found.None? {
      return Err(NotFound);
    }
    var k := found.value;
    var c := CityModel.Update(db.cities[k], input);
    Database.ReplaceKeepsKeys(db.cities, k, c, Database.CityKey, db.nextId);
    db.cities := db.cities[k := c];
    r := Ok(c);
  }

  /** `DELETE /cities/:id`: the city is removed; the places that name it
      keep their reference. */
  method DeleteCity(db: Database.Store, caller: Caller, id: Id) returns (r: Result<()>)
    requires db.Valid()
    modifies db
    ensures db.Valid()
    ensures db.places == old(db.places) && db.users == old(db.users)
    ensures db.reviews == old(db.reviews) && db.nextId == old(db.nextId)
    ensures !IsAdmin(caller) ==> r == Err(Denied) && db.cities == old(db.cities)
    ensures IsAdmin(caller) && Database.Find(old(db.cities), Database.CityKey, id).None? ==>
      r == Err(NotFound) && db.cities == old(db.cities)
    ensures IsAdmin(caller) && Database.Find(old(db.cities), Database.CityKey, id).Some? ==>
      var k := Database.Find(old(db.cities), Database.CityKey, id).value;
      && r == Ok(())
      && db.cities == old(db.cities)[..k] + old(db.cities)[k + 1..]
      && forall i :: 0 <= i < |db.cities| ==> db.cities[i].id != id
  {
    if !IsAdmin(caller) {
      return Err(Denied);
    }
    var found := Database.Find(db.cities, Database.CityKey, id);
    if found.None? {
      return Err(NotFound);
    }
    var k := found.value;
    ghost var before := db.cities;
    Database.RemoveKeepsKeys(db.cities, k, Database.CityKey, db.nextId);
    db.cities := db.cities[..k] + db.cities[k + 1..];
    forall i | 0 <= i < |db.cities| ensures db.cities[i].id != id {
      assert db.cities[i] == before[if i < k then i else i + 1];
    }
    r := Ok(());
  }
}
