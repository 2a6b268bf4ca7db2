/** The rating projection of the business list: how many approved reviews a
    business has and their mean overall rating to one decimal place. The mean
    is kept in integer tenths (45 stands for 4.5). */
module Rating {
  import opened Entities
  import ReviewQuery

  /** `reduce((sum, r) => sum + r, 0)`, folding from the left. */
  function Sum(xs: seq<int>): int
  {
    if xs == [] then 0 else Sum(xs[..|xs| - 1]) + xs[|xs| - 1]
  }

  /** The sum of a concatenation is the sum of the parts, so the fold's
      grouping and direction do not matter. */
  lemma {:induction false} SumConcat(xs: seq<int>, ys: seq<int>)
    ensures Sum(xs + ys) == Sum(xs) + Sum(ys)
    decreases |ys|
  {
    if ys != [] {
      var init := ys[..|ys| - 1];
      SumConcat(xs, init);
      assert (xs + ys)[..|xs + ys| - 1] == xs + init;
    } else {
      assert xs + ys == xs;
    }
  }

  /** `Math.round(sum / n * 10)` for n > 0, and 0 for no ratings: the nearest
      integer to 10 * sum / n, halves rounded up. */
  function MeanTenths(xs: seq<int>): (t: int)
    ensures xs == [] ==> t == 0
    ensures xs != [] ==> -|xs| <= 20 * Sum(xs) - 2 * |xs| * t < |xs|
  {
    if xs == [] then 0
    else
      var n := |xs|;
      var q := (20 * Sum(xs) + n) / (2 * n);
      assert 2 * n * q <= 20 * Sum(xs) + n < 2 * n * q + 2 * n;
      q
  }

  /** The rounding condition pins down one value: the mean rounds to nothing else. */
  lemma MeanTenthsUnique(xs: seq<int>, t: int)
    requires xs != []
    requires -|xs| <= 20 * Sum(xs) - 2 * |xs| * t < |xs|
    ensures t == MeanTenths(xs)
  {
    var n, m := |xs|, MeanTenths(xs);
    if t < m {
      MulMonotone(2 * n, t + 1, m);
    } else if t > m {
      MulMonotone(2 * n, m + 1, t);
    }
  }

  lemma MulMonotone(k: int, a: int, b: int)
    requires k > 0 && a <= b
    ensures k * a <= k * b
  {
  }

  /** Every rating between lo and hi puts the sum between n * lo and n * hi. */
  lemma {:induction false} SumBounds(xs: seq<int>, lo: int, hi: int)
    requires forall i :: 0 <= i < |xs| ==> lo <= xs[i] <= hi
    ensures |xs| * lo <= Sum(xs) <= |xs| * hi
  {
    if xs != [] {
      var n, init := |xs|, xs[..|xs| - 1];
      SumBounds(init, lo, hi);
      assert Sum(xs) == Sum(init) + xs[n - 1];
      assert n * lo == (n - 1) * lo + lo;
      assert n * hi == (n - 1) * hi + hi;
    }
  }

  /** A sum of at least n * lo never rounds below lo (in tenths). */
  lemma RoundedNotBelow(n: int, sum: int, t: int, lo: int)
    requires n > 0 && n * lo <= sum && 20 * sum - 2 * n * t < n
    ensures 10 * lo <= t
  {
    assert 2 * n * (t + 1) == 2 * n * t + 2 * n;
    assert 2 * n * (10 * lo) == 20 * (n * lo);
    if t < 10 * lo {
      MulMonotone(2 * n, t + 1, 10 * lo);
    }
  }

  /** A sum of at most n * hi never rounds above hi (in tenths). */
  lemma RoundedNotAbove(n: int, sum: int, t: int, hi: int)
    requires n > 0 && sum <= n * hi && -n <= 20 * sum - 2 * n * t
    ensures t <= 10 * hi
  {
    assert 2 * n * (10 * hi + 1) == 20 * (n * hi) + 2 * n;
    if t > 10 * hi {
      MulMonotone(2 * n, 10 * hi + 1, t);
    }
  }

  /** The rounded mean of ratings between lo and hi lies between lo and hi
      (in tenths): rounding never leaves the range of the ratings. */
  lemma MeanTenthsBounds(xs: seq<int>, lo: int, hi: int)
    requires xs != []
    requires forall i :: 0 <= i < |xs| ==> lo <= xs[i] <= hi
    ensures 10 * lo <= MeanTenths(xs) <= 10 * hi
  {
    SumBounds(xs, lo, hi);
    RoundedNotBelow(|xs|, Sum(xs), MeanTenths(xs), lo);
    RoundedNotAbove(|xs|, Sum(xs), MeanTenths(xs), hi);
  }

  /** With every rating in 1..5, a non-zero average only comes from at least
      one review and lies in [1.0, 5.0]. */
  lemma MeanTenthsOfStars(xs: seq<int>)
    requires forall i :: 0 <= i < |xs| ==> 1 <= xs[i] <= 5
    ensures MeanTenths(xs) != 0 ==> xs != []
    ensures xs != [] ==> 10 <= MeanTenths(xs) <= 50
  {
    if xs != [] {
      MeanTenthsBounds(xs, 1, 5);
    }
  }

  /** The overall rating of each row, in order. */
  function OverallRatings(rows: seq<Review>): (xs: seq<int>)
    ensures |xs| == |rows|
    ensures forall i :: 0 <= i < |rows| ==> xs[i] == rows[i].overallRating
  {
    seq(|rows|, i requires 0 <= i < |rows| => rows[i].overallRating)
  }

  /** The overall ratings of the APPROVED reviews of one business, in table order
      (the `include: { reviews: { where: { status: 'APPROVED' } } }` relation). */
  function ApprovedRatings(reviews: seq<Review>, businessId: string): (xs: seq<int>)
    ensures |xs| <= |reviews|
  {
    if reviews == [] then []
    else
      var r := reviews[|reviews| - 1];
      ApprovedRatings(reviews[..|reviews| - 1], businessId) +
        (if r.businessId == businessId && r.status == Approved then [r.overallRating] else [])
  }

  /** The ratings averaged are, in order, the overall ratings of exactly the
      rows the detail page shows for that business: same rows, same
      multiplicities, so the same sum. */
  lemma {:induction false} ApprovedRatingsAreApprovedRows(reviews: seq<Review>, businessId: string)
    ensures ApprovedRatings(reviews, businessId) == OverallRatings(ReviewQuery.ApprovedFor(reviews, businessId))
  {
    if reviews != [] {
      var init, r := reviews[..|reviews| - 1], reviews[|reviews| - 1];
      ApprovedRatingsAreApprovedRows(init, businessId);
      var rows := ReviewQuery.ApprovedFor(init, businessId);
      if r.businessId == businessId && r.status == Approved {
        assert ReviewQuery.ApprovedFor(reviews, businessId) == rows + [r];
        OverallRatingsSnoc(rows, r);
      } else {
        assert ReviewQuery.ApprovedFor(reviews, businessId) == rows;
      }
    }
  }

  lemma OverallRatingsSnoc(rows: seq<Review>, r: Review)
    ensures OverallRatings(rows + [r]) == OverallRatings(rows) + [r.overallRating]
  {
  }

  /** The rows that count towards a business's rating, by position. */
  ghost function ApprovedIndices(reviews: seq<Review>, businessId: string): set<int>
  {
    set i | 0 <= i < |reviews| && reviews[i].businessId == businessId && reviews[i].status == Approved
  }

  /** Adding a row at the end adds its position when it counts, and nothing else. */
  lemma ApprovedIndicesSnoc(reviews: seq<Review>, businessId: string)
    requires reviews != []
    ensures var n := |reviews| - 1;
            ApprovedIndices(reviews, businessId) ==
            ApprovedIndices(reviews[..n], businessId) +
              (if reviews[n].businessId == businessId && reviews[n].status == Approved then {n} else {})
  {
    var n := |reviews| - 1;
    assert forall i :: 0 <= i < n ==> reviews[..n][i] == reviews[i];
  }

  /** The count is the number of APPROVED reviews of that business. */
  lemma {:induction false} ApprovedRatingsCount(reviews: seq<Review>, businessId: string)
    ensures |ApprovedRatings(reviews, businessId)| == |ApprovedIndices(reviews, businessId)|
  {
    if reviews != [] {
      var n := |reviews| - 1;
      ApprovedRatingsCount(reviews[..n], businessId);
      ApprovedIndicesSnoc(reviews, businessId);
      assert n !in ApprovedIndices(reviews[..n], businessId);
    }
  }

  /** Every counted rating is the overall rating of an APPROVED review of
      that business, and every such review's rating is counted. */
  lemma {:induction false} ApprovedRatingsMembers(reviews: seq<Review>, businessId: string)
    ensures forall x :: x in ApprovedRatings(reviews, businessId) <==>
      exists i :: i in ApprovedIndices(reviews, businessId) && reviews[i].overallRating == x
  {
    if reviews != [] {
      var n := |reviews| - 1;
      ApprovedRatingsMembers(reviews[..n], businessId);
      ApprovedIndicesSnoc(reviews, businessId);
      assert forall i :: 0 <= i < n ==> reviews[..n][i] == reviews[i];
    }
  }

  /** The four ratings the list query selects from each approved review. */
  datatype Ratings = Ratings(overallRating: int, qualityRating: int, serviceRating: int, valueRating: int)

  function RatingsOf(r: Review): Ratings
  {
    Ratings(r.overallRating, r.qualityRating, r.serviceRating, r.valueRating)
  }

  /** The `select` of the four ratings, row by row. */
  function SelectRatings(rows: seq<Review>): (out: seq<Ratings>)
    ensures |out| == |rows|
    ensures forall i :: 0 <= i < |rows| ==> out[i] == RatingsOf(rows[i])
  {
    seq(|rows|, i requires 0 <= i < |rows| => RatingsOf(rows[i]))
  }

  /** A business annotated as in the list response: its columns, the ratings
      of its approved reviews, their rounded mean and their count. */
  datatype RatedBusiness = RatedBusiness(
    business: Business, reviews: seq<Ratings>, averageRating: int, reviewCount: nat)

  /** The `businesses.map(...)` step for one business. */
  function Rate(b: Business, reviews: seq<Review>): (rb: RatedBusiness)
    ensures rb.business == b
    ensures |rb.reviews| == rb.reviewCount
    ensures rb.reviews == SelectRatings(ReviewQuery.ApprovedFor(reviews, b.id))
    ensures rb.reviewCount == |ApprovedIndices(reviews, b.id)|
    ensures rb.reviewCount == 0 ==> rb.averageRating == 0
    ensures rb.reviewCount > 0 ==>
      var xs, n := ApprovedRatings(reviews, b.id), rb.reviewCount as int;
      -n <= 20 * Sum(xs) - 2 * n * rb.averageRating < n
  {
    ApprovedRatingsCount(reviews, b.id);
    ApprovedRatingsAreApprovedRows(reviews, b.id);
    var xs := ApprovedRatings(reviews, b.id);
    RatedBusiness(b, SelectRatings(ReviewQuery.ApprovedFor(reviews, b.id)), MeanTenths(xs), |xs|)
  }

  /** When every approved overall rating of the business is in 1..5, a listed
      average is 0 exactly when it has no approved review, and otherwise lies
      between 1.0 and 5.0 and between its lowest and highest rating. */
  lemma RateWithinStars(b: Business, reviews: seq<Review>, lo: int, hi: int)
    requires 1 <= lo && hi <= 5
    requires forall i :: 0 <= i < |reviews| && reviews[i].businessId == b.id && reviews[i].status == Approved ==>
      lo <= reviews[i].overallRating <= hi
    ensures Rate(b, reviews).averageRating == 0 <==> Rate(b, reviews).reviewCount == 0
    ensures Rate(b, reviews).reviewCount > 0 ==> 10 * lo <= Rate(b, reviews).averageRating <= 10 * hi
  {
    var xs := ApprovedRatings(reviews, b.id);
    ApprovedRatingsMembers(reviews, b.id);
    forall i | 0 <= i < |xs| ensures lo <= xs[i] <= hi {
      assert xs[i] in xs;
    }
    if xs != [] {
      MeanTenthsBounds(xs, lo, hi);
    }
  }

  /** The `businesses.map(...)` over a whole result: each business rated, in order. */
  function RateAll(bs: seq<Business>, reviews: seq<Review>): (out: seq<RatedBusiness>)
    ensures |out| == |bs|
    ensures forall j :: 0 <= j < |bs| ==> out[j] == Rate(bs[j], reviews)
  {
    seq(|bs|, j requires 0 <= j < |bs| => Rate(bs[j], reviews))
  }

  lemma RateAllSnoc(bs: seq<Business>, b: Business, reviews: seq<Review>)
    ensures RateAll(bs + [b], reviews) == RateAll(bs, reviews) + [Rate(b, reviews)]
  {
  }
}
