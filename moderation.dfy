/** The review workflow: submission always enters PENDING with the author
    taken from the token, admins read the PENDING queue newest first, and the
    moderation update rewrites the status of one review. */
module Moderation {
  import opened Http
  import opened Entities
  import opened ReviewQuery

  /** The JSON body of `POST /api/reviews`. A `status` or `userId` sent by the
      client is part of the body but the handler never reads it. */
  datatype ReviewBody = ReviewBody(
    businessId: string, content: string,
    qualityRating: int, serviceRating: int, valueRating: int, overallRating: int,
    status: Option<string>, userId: Option<string>)

  /** The row the review submission inserts: the author is the caller's
      `userId` claim, the status is the column default PENDING, and only the
      content, the four ratings and the business id come from the body. */
  function NewReview(body: ReviewBody, userId: string, id: string, createdAt: int): (r: Review)
    ensures r.status == Pending && r.userId == userId
    ensures r.id == id && r.createdAt == createdAt && r.businessId == body.businessId
    ensures r.content == body.content && r.overallRating == body.overallRating
    ensures r.qualityRating == body.qualityRating && r.serviceRating == body.serviceRating
    ensures r.valueRating == body.valueRating
  {
    Review(id, body.content, body.qualityRating, body.serviceRating, body.valueRating,
           body.overallRating, Pending, createdAt, userId, body.businessId)
  }

  /** Whatever status or author the client puts in the body, the stored row
      is the same: PENDING, with the author taken from the token. */
  lemma IgnoredBodyFields(body: ReviewBody, sentStatus: Option<string>, sentUser: Option<string>,
                          userId: string, id: string, createdAt: int)
    ensures NewReview(body.(status := sentStatus, userId := sentUser), userId, id, createdAt) ==
            NewReview(body, userId, id, createdAt)
    ensures NewReview(body.(status := sentStatus, userId := sentUser), userId, id, createdAt).status == Pending
    ensures NewReview(body.(status := sentStatus, userId := sentUser), userId, id, createdAt).userId == userId
  {
  }

  /** The admin queue: exactly the PENDING rows, each as often as in the
      table, newest first. */
  function PendingQueue(rs: seq<Review>): (out: seq<Review>)
    ensures NewestFirst(out)
    ensures forall r :: multiset(out)[r] == if r.status == Pending then multiset(rs)[r] else 0
  {
    SortNewestFirst(WithStatus(rs, Pending))
  }

  /** A review is in the admin queue exactly when it is a PENDING row of the table. */
  lemma InPendingQueue(rs: seq<Review>, r: Review)
    ensures r in PendingQueue(rs) <==> r in rs && r.status == Pending
  {
    assert r in PendingQueue(rs) <==> multiset(PendingQueue(rs))[r] > 0;
  }

  /** `prisma.review.update({ where: { id }, data: { status } })` on the table.
      None stands for the thrown error when no row has the id. An absent
      `status` field leaves the row as it is; any present string is written
      unchecked. */
  function UpdateStatus(rs: seq<Review>, id: string, status: Option<string>): (out: Option<seq<Review>>)
    requires DistinctReviewIds(rs)
    ensures out.None? <==> forall i :: 0 <= i < |rs| ==> rs[i].id != id
    ensures out.Some? ==> |out.value| == |rs|
    ensures out.Some? ==> forall i :: 0 <= i < |rs| ==>
      out.value[i] == if rs[i].id == id && status.Some? then rs[i].(status := status.value) else rs[i]
  {
    match IndexOf(rs, id, (r: Review) => r.id)
    case None => None
    case Some(k) =>
      var row := rs[k];
      Some(if status.Some? then rs[k := row.(status := status.value)] else rs)
  }

  /** The update changes no key and no reference: ids stay distinct and each
      row keeps its id, author and business. */
  lemma UpdateStatusKeepsKeys(rs: seq<Review>, id: string, status: Option<string>)
    requires DistinctReviewIds(rs) && UpdateStatus(rs, id, status).Some?
    ensures var out := UpdateStatus(rs, id, status).value;
      forall i :: 0 <= i < |rs| ==>
        out[i].id == rs[i].id && out[i].userId == rs[i].userId && out[i].businessId == rs[i].businessId
    ensures DistinctReviewIds(UpdateStatus(rs, id, status).value)
  {
    var out := UpdateStatus(rs, id, status).value;
    assert forall i :: 0 <= i < |rs| ==> out[i].id == rs[i].id;
  }

  /** Approving a pending review moves it out of the admin queue and into
      the approved reviews of its business. */
  lemma ApprovalPublishes(rs: seq<Review>, k: nat)
    requires DistinctReviewIds(rs) && k < |rs| && rs[k].status == Pending
    ensures UpdateStatus(rs, rs[k].id, Some(Approved)).Some?
    ensures rs[k].(status := Approved) in ApprovedFor(UpdateStatus(rs, rs[k].id, Some(Approved)).value, rs[k].businessId)
    ensures rs[k].(status := Approved) !in PendingQueue(UpdateStatus(rs, rs[k].id, Some(Approved)).value)
    ensures rs[k] !in PendingQueue(UpdateStatus(rs, rs[k].id, Some(Approved)).value)
  {
    var out := UpdateStatus(rs, rs[k].id, Some(Approved)).value;
    var approved := rs[k].(status := Approved);
    assert out[k] == approved;
    InApprovedFor(out, rs[k].businessId, approved);
    InPendingQueue(out, approved);
    assert rs[k] !in out by {
      forall i | 0 <= i < |out| ensures out[i] != rs[k] {
        if i != k { assert rs[i].id != rs[k].id; }
      }
    }
    InPendingQueue(out, rs[k]);
  }
}
