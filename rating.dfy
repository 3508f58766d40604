/** The rating cache of a place (server/routes/places.js, after a review is
    added): the count of the place's active reviews and their mean, rounded
    to one decimal by `Math.round(mean * 10) / 10`. */
module RatingAggregate {
  import opened Common
  import opened ReviewModel
  import PlaceModel
  import Seqs

  /** The review filter `{ place: id, status: 'active' }`. */
  function ActiveOf(place: Id): Review -> bool {
    (r: Review) => r.place == place && r.status == "active"
  }

  /** The active reviews of `place`, in stored order. */
  function ActiveReviews(rs: seq<Review>, place: Id): seq<Review> {
    Seqs.Filter(rs, ActiveOf(place))
  }

  /** `reviews.reduce((sum, r) => sum + r.rating, 0)`: a left fold. */
  function SumRatings(rs: seq<Review>): int {
    if rs == [] then 0 else SumRatings(rs[..|rs| - 1]) + rs[|rs| - 1].rating
  }

  predicate RatingsInRange(rs: seq<Review>) {
    forall i :: 0 <= i < |rs| ==> 1 <= rs[i].rating <= 5
  }

  /** Every rating lies in [1, 5], so the sum lies between the count and five
      times the count. */
  lemma {:induction false} SumRatingsBounds(rs: seq<Review>)
    requires RatingsInRange(rs)
    ensures |rs| <= SumRatings(rs) <= 5 * |rs|
  {
    if rs != [] {
      SumRatingsBounds(rs[..|rs| - 1]);
    }
  }

  lemma SumRatingsAppend(rs: seq<Review>, r: Review)
    ensures SumRatings(rs + [r]) == SumRatings(rs) + r.rating
  {
    assert (rs + [r])[..|rs|] == rs;
  }

  /** `Math.round(10 * sum / count)` in exact arithmetic: the whole number of
      tenths nearest to the mean, a half rounding up. */
  function RoundedTenths(sum: int, count: int): (t: int)
    requires count > 0
    ensures (2 * t - 1) * count <= 20 * sum < (2 * t + 1) * count
  {
    var t := (20 * sum + count) / (2 * count);
    var m := (20 * sum + count) % (2 * count);
    assert 20 * sum + count == 2 * count * t + m && 0 <= m < 2 * count;
    assert (2 * t - 1) * count == 2 * count * t - count;
    assert (2 * t + 1) * count == 2 * count * t + count;
    t
  }

  /** The rounding window admits exactly one whole number of tenths, so
      RoundedTenths is the only rounding of the mean with a half rounding
      up. */
  lemma RoundedTenthsUnique(sum: int, count: int, t: int)
    requires count > 0
    requires (2 * t - 1) * count <= 20 * sum < (2 * t + 1) * count
    ensures t == RoundedTenths(sum, count)
  {
    var r := RoundedTenths(sum, count);
    if t < r {
      assert (2 * t + 1) * count <= (2 * r - 1) * count by {
        MultiplyMonotone(2 * t + 1, 2 * r - 1, count);
      }
    } else if r < t {
      assert (2 * r + 1) * count <= (2 * t - 1) * count by {
        MultiplyMonotone(2 * r + 1, 2 * t - 1, count);
      }
    }
  }

  lemma MultiplyMonotone(a: int, b: int, c: nat)
    requires a <= b
    ensures a * c <= b * c
  {
    assert b * c - a * c == (b - a) * c;
  }

  /** A mean of ratings in [1, 5] rounds to between 10 and 50 tenths. */
  lemma RoundedTenthsBounds(sum: int, count: int)
    requires count > 0 && count <= sum <= 5 * count
    ensures 10 <= RoundedTenths(sum, count) <= 50
  {
    var t := RoundedTenths(sum, count);
    if t < 10 {
      MultiplyMonotone(2 * t + 1, 19, count);
    }
    if t > 50 {
      MultiplyMonotone(101, 2 * t - 1, count);
    }
  }

  /** The recomputed cache, or None when the place has no active review: the
      source then divides 0 by 0, and the NaN average it tries to store is
      refused by the cast to Number. */
  function Recompute(rs: seq<Review>, place: Id): (r: Option<PlaceModel.Rating>)
    ensures r.None? <==> ActiveReviews(rs, place) == []
    ensures r.Some? ==> r.value.count == |ActiveReviews(rs, place)|
  {
    var active := ActiveReviews(rs, place);
    if active == [] then None
    else Some(PlaceModel.Rating(RoundedTenths(SumRatings(active), |active|) as real / 10.0, |active|))
  }

  /** When the cache is recomputed, the count is the number of the place's
      active reviews and ten times the average is the whole number nearest to
      ten times their mean, a half rounding up. */
  lemma RecomputeMeaning(rs: seq<Review>, place: Id)
    requires ActiveReviews(rs, place) != []
    ensures var r := Recompute(rs, place).value;
      var active := ActiveReviews(rs, place);
      && r.count == |Seqs.Positions(rs, ActiveOf(place))|
      && r.average * 10.0 == (r.average * 10.0).Floor as real
      && (2 * (r.average * 10.0).Floor - 1) * r.count <= 20 * SumRatings(active)
      && 20 * SumRatings(active) < (2 * (r.average * 10.0).Floor + 1) * r.count
  {
    Seqs.FilterLength(rs, ActiveOf(place));
    var active := ActiveReviews(rs, place);
    var t := RoundedTenths(SumRatings(active), |active|);
    assert (t as real / 10.0) * 10.0 == t as real;
  }

  /** With every rating in [1, 5] the recomputed average lies in [1, 5], so
      it always passes the schema's [0, 5] bound. */
  lemma RecomputeBounds(rs: seq<Review>, place: Id)
    requires RatingsInRange(rs) && ActiveReviews(rs, place) != []
    ensures 1.0 <= Recompute(rs, place).value.average <= 5.0
  {
    var active := ActiveReviews(rs, place);
    forall i | 0 <= i < |active| ensures 1 <= active[i].rating <= 5 {
      assert active[i] in rs;
    }
    SumRatingsBounds(active);
    RoundedTenthsBounds(SumRatings(active), |active|);
  }

  /** Adding an active review of the place adds one to the recomputed count
      and its rating to the sum; any other review leaves both unchanged. */
  lemma RecomputeAfterAppend(rs: seq<Review>, r: Review, place: Id)
    ensures ActiveOf(place)(r) ==>
      && ActiveReviews(rs + [r], place) == ActiveReviews(rs, place) + [r]
      && SumRatings(ActiveReviews(rs + [r], place)) == SumRatings(ActiveReviews(rs, place)) + r.rating
      && Recompute(rs + [r], place).value.count == |ActiveReviews(rs, place)| + 1
    ensures !ActiveOf(place)(r) ==> Recompute(rs + [r], place) == Recompute(rs, place)
  {
    Seqs.FilterAppend(rs, r, ActiveOf(place));
    SumRatingsAppend(ActiveReviews(rs, place), r);
  }
}
