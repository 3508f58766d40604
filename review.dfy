/** The Review record (server/models/Review.js): fields, defaults, the rating
    bounds and the unique index on (user, place). */
module ReviewModel {
  import opened Common
  import Text

  datatype Review = Review(
    id: Id,
    user: Id,
    place: Id,
    rating: int,
    title: string,
    comment: string,
    verified: bool,
    status: string,
    createdAt: nat)

  const DefaultStatus := "active"

  /** `new Review(...)`: the `trim` setter on title, defaults verified = false
      and status = "active". */
  function New(id: Id, user: Id, place: Id, rating: int, title: string, comment: string,
               verified: Option<bool>, status: Option<string>, now: nat): Review
  {
    Review(id, user, place, rating, Text.Trim(title), comment,
           verified.GetOr(false), status.GetOr(DefaultStatus), now)
  }

  /** The schema's validators: rating within [1, 5] and the required strings
      non-empty. `status` is unconstrained. */
  predicate Valid(r: Review) {
    1 <= r.rating <= 5 && r.title != "" && r.comment != ""
  }

  /** The unique index `{ user: 1, place: 1 }`: no two reviews share both. */
  predicate OnePerUserPlace(rs: seq<Review>) {
    forall i, j :: 0 <= i < j < |rs| ==> rs[i].user != rs[j].user || rs[i].place != rs[j].place
  }

  /** Some review, in any status, is by `user` about `place`. */
  predicate HasReviewBy(rs: seq<Review>, user: Id, place: Id) {
    exists i :: 0 <= i < |rs| && rs[i].user == user && rs[i].place == place
  }

  /** A new review is active and unverified unless the input says otherwise. */
  lemma NewDefaults(id: Id, user: Id, place: Id, rating: int, title: string, comment: string,
                    verified: Option<bool>, status: Option<string>, now: nat)
    ensures var r := New(id, user, place, rating, title, comment, verified, status, now);
      && r.status == (if status.Some? then status.value else "active")
      && r.verified == (verified.Some? && verified.value)
      && r.user == user && r.place == place
  {
  }

  /** Inserting a review keeps the index satisfied exactly when its author
      has no review of that place yet. */
  lemma {:induction false} AppendKeepsOnePerUserPlace(rs: seq<Review>, r: Review)
    requires OnePerUserPlace(rs)
    ensures OnePerUserPlace(rs + [r]) <==> !HasReviewBy(rs, r.user, r.place)
  {
    var rs' := rs + [r];
    if HasReviewBy(rs, r.user, r.place) {
      var i :| 0 <= i < |rs| && rs[i].user == r.user && rs[i].place == r.place;
      assert rs'[i] == rs[i] && rs'[|rs|] == r;
    } else {
      forall i, j | 0 <= i < j < |rs'|
        ensures rs'[i].user != rs'[j].user || rs'[i].place != rs'[j].place
      {
        if j == |rs| {
          assert rs'[i] == rs[i];
        } else {
          assert rs'[i] == rs[i] && rs'[j] == rs[j];
        }
      }
    }
  }
}
