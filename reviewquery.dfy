/** Reading the review table: selecting rows by status (and business) and
    ordering them newest first (`orderBy: { createdAt: 'desc' }`). */
module ReviewQuery {
  import opened Entities

  /** `where: { status }`: the rows with that status, in table order. */
  function WithStatus(rs: seq<Review>, status: string): (out: seq<Review>)
    ensures |out| <= |rs|
    ensures forall r :: multiset(out)[r] == if r.status == status then multiset(rs)[r] else 0
  {
    if rs == [] then []
    else
      var init, last := rs[..|rs| - 1], rs[|rs| - 1];
      assert rs == init + [last];
      WithStatus(init, status) + (if last.status == status then [last] else [])
  }

  /** `where: { status: 'APPROVED' }` on the reviews of one business. */
  function ApprovedFor(rs: seq<Review>, businessId: string): (out: seq<Review>)
    ensures |out| <= |rs|
    ensures forall r :: multiset(out)[r] == (if r.status == Approved && r.businessId == businessId
                                             then multiset(rs)[r] else 0)
  {
    if rs == [] then []
    else
      var init, last := rs[..|rs| - 1], rs[|rs| - 1];
      assert rs == init + [last];
      ApprovedFor(init, businessId) +
        (if last.status == Approved && last.businessId == businessId then [last] else [])
  }

  /** The approved reviews of a business are exactly the table's APPROVED rows for it. */
  lemma InApprovedFor(rs: seq<Review>, businessId: string, r: Review)
    ensures r in ApprovedFor(rs, businessId) <==> r in rs && r.status == Approved && r.businessId == businessId
  {
    assert r in ApprovedFor(rs, businessId) <==> multiset(ApprovedFor(rs, businessId))[r] > 0;
  }

  /** Ordered by `createdAt`, latest first: each review is at least as new as the next. */
  ghost predicate NewestFirst(rs: seq<Review>)
  {
    forall i :: 0 < i < |rs| ==> rs[i - 1].createdAt >= rs[i].createdAt
  }

  /** Newest first holds between any two positions, not just neighbours. */
  lemma {:induction false} NewestFirstPairwise(rs: seq<Review>, i: int, j: int)
    requires NewestFirst(rs) && 0 <= i <= j < |rs|
    ensures rs[i].createdAt >= rs[j].createdAt
    decreases j - i
  {
    if i < j {
      NewestFirstPairwise(rs, i + 1, j);
    }
  }

  /** A review at least as new as the head of a newest-first sequence can go in front. */
  lemma ConsNewestFirst(r: Review, rs: seq<Review>)
    requires NewestFirst(rs) && (rs == [] || r.createdAt >= rs[0].createdAt)
    ensures NewestFirst([r] + rs)
  {
    var out := [r] + rs;
    forall i | 1 < i < |out| ensures out[i - 1].createdAt >= out[i].createdAt {
      assert out[i - 1] == rs[i - 2] && out[i] == rs[i - 1];
    }
  }

  /** Places one review into a newest-first sequence. */
  function Insert(r: Review, sorted: seq<Review>): (out: seq<Review>)
    requires NewestFirst(sorted)
    ensures NewestFirst(out)
    ensures multiset(out) == multiset(sorted) + multiset{r}
    ensures |out| == |sorted| + 1
    ensures out[0] == r || (sorted != [] && out[0] == sorted[0])
  {
    if sorted == [] || r.createdAt >= sorted[0].createdAt then
      ConsNewestFirst(r, sorted);
      [r] + sorted
    else
      var rest := sorted[1..];
      assert NewestFirst(rest) by {
        forall i | 0 < i < |rest| ensures rest[i - 1].createdAt >= rest[i].createdAt {
          assert rest[i - 1] == sorted[i] && rest[i] == sorted[i + 1];
        }
      }
      var tail := Insert(r, rest);
      assert sorted == [sorted[0]] + rest;
      assert tail[0].createdAt <= sorted[0].createdAt;
      ConsNewestFirst(sorted[0], tail);
      [sorted[0]] + tail
  }

  /** The rows reordered newest first: a permutation of its input. */
  function SortNewestFirst(rs: seq<Review>): (out: seq<Review>)
    ensures NewestFirst(out)
    ensures multiset(out) == multiset(rs)
  {
    if rs == [] then []
    else
      assert rs == [rs[0]] + rs[1..];
      Insert(rs[0], SortNewestFirst(rs[1..]))
  }
}
