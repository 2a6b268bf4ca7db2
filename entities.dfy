/** The three tables of the relational store, as rows. */
module Entities {
  import opened Http

  /** The role a newly registered user receives from the column default. */
  const UserRole: string := "USER"

  /** Review statuses. The status column holds whatever string it is given;
      these are the values the backend itself writes or filters on. */
  const Pending: string := "PENDING"
  const Approved: string := "APPROVED"

  datatype User = User(id: string, email: string, name: string, passwordHash: string, role: string)

  datatype Business = Business(
    id: string, name: string, description: string,
    category: string, location: string, imageUrl: string)

  /** Ratings are stored as given (the backend checks no range); `createdAt`
      is the insertion timestamp. */
  datatype Review = Review(
    id: string, content: string,
    qualityRating: int, serviceRating: int, valueRating: int, overallRating: int,
    status: string, createdAt: int, userId: string, businessId: string)

  /** The position of the row whose key is `id` (a primary-key lookup). */
  function IndexOf<T>(rows: seq<T>, id: string, key: T -> string): (k: Option<nat>)
    ensures k.Some? ==> k.value < |rows| && key(rows[k.value]) == id
    ensures k.None? <==> forall i :: 0 <= i < |rows| ==> key(rows[i]) != id
  {
    if rows == [] then None
    else if key(rows[0]) == id then Some(0)
    else
      match IndexOf(rows[1..], id, key)
      case None =>
        assert forall i :: 1 <= i < |rows| ==> rows[i] == rows[1..][i - 1];
        None
      case Some(k) => Some(k + 1)
  }

  /** Primary keys are unique. */
  ghost predicate DistinctReviewIds(rs: seq<Review>)
  {
    forall i, j :: 0 <= i < j < |rs| ==> rs[i].id != rs[j].id
  }

  ghost predicate DistinctBusinesses(bs: seq<Business>)
  {
    forall i, j :: 0 <= i < j < |bs| ==> bs[i].id != bs[j].id && bs[i].name != bs[j].name
  }

  /** User ids and emails are both unique. */
  ghost predicate DistinctUsers(us: seq<User>)
  {
    forall i, j :: 0 <= i < j < |us| ==> us[i].id != us[j].id && us[i].email != us[j].email
  }

  ghost predicate HasUser(us: seq<User>, id: string)
  {
    exists u :: 0 <= u < |us| && us[u].id == id
  }

  ghost predicate HasBusiness(bs: seq<Business>, id: string)
  {
    exists b :: 0 <= b < |bs| && bs[b].id == id
  }

  /** Every review row refers to an existing user and an existing business. */
  ghost predicate ReviewsReferenced(rs: seq<Review>, us: seq<User>, bs: seq<Business>)
  {
    forall i :: 0 <= i < |rs| ==> HasUser(us, rs[i].userId) && HasBusiness(bs, rs[i].businessId)
  }

  /** Inserting users or businesses never breaks a reference. */
  lemma ReferencesSurviveInserts(rs: seq<Review>, us: seq<User>, bs: seq<Business>, us': seq<User>, bs': seq<Business>)
    requires ReviewsReferenced(rs, us, bs)
    requires |us| <= |us'| && us'[..|us|] == us
    requires |bs| <= |bs'| && bs'[..|bs|] == bs
    ensures ReviewsReferenced(rs, us', bs')
  {
    forall i | 0 <= i < |rs| ensures HasUser(us', rs[i].userId) && HasBusiness(bs', rs[i].businessId) {
      var u :| 0 <= u < |us| && us[u].id == rs[i].userId;
      assert us'[u] == us[u];
      var b :| 0 <= b < |bs| && bs[b].id == rs[i].businessId;
      assert bs'[b] == bs[b];
    }
  }
}
