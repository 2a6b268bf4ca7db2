/** The backend's store and its route handlers. The three tables are
    sequences of rows that the handlers replace as the store's inserts and
    updates would; ids and timestamps the store would generate, and the
    password hash, are passed in. */
module Backend {
  import opened Http
  import opened Entities
  import Auth
  import Rating
  import Catalog
  import Moderation
  import ReviewQuery

  /** A user as the register response shows it (no password). */
  datatype Account = Account(id: string, email: string, name: string, role: string)

  /** The register response: the claims that get signed into the token, and the account. */
  datatype Registered = Registered(claims: Auth.Claims, account: Account)

  /** The JSON body of `POST /api/admin/businesses`. */
  datatype BusinessBody = BusinessBody(
    name: string, description: string, category: string, location: string, imageUrl: string)

  /** The claims a token issued for this user carries. */
  function ClaimsOf(u: User): (c: Auth.Claims)
    ensures c.userId == Some(u.id) && c.role == Some(u.role)
  {
    Auth.Claims(Some(u.id), Some(u.role))
  }

  /** Registration never yields admin rights: the token of a new user fails `requireAdmin`. */
  lemma RegisteredIsNotAdmin(u: User)
    requires u.role == UserRole
    ensures Auth.RequireAdmin(ClaimsOf(u)) == Auth.Deny(Forbidden)
  {
  }

  class Store {
    var users: seq<User>
    var businesses: seq<Business>
    var reviews: seq<Review>

    /** The store's constraints: unique keys, unique emails and business
        names, and reviews that reference existing rows. */
    ghost predicate Valid()
      reads this
    {
      && DistinctUsers(users)
      && DistinctBusinesses(businesses)
      && DistinctReviewIds(reviews)
      && ReviewsReferenced(reviews, users, businesses)
    }

    constructor ()
      ensures Valid()
      ensures users == [] && businesses == [] && reviews == []
    {
      users, businesses, reviews := [], [], [];
    }

    /** `POST /api/register`: the insert fails on a taken email (or id) and
        every failure is reported as 400. A new user gets the default role. */
    method Register(email: string, name: string, passwordHash: string, id: string) returns (resp: Response<Registered>)
      requires Valid()
      modifies this
      ensures Valid()
      ensures businesses == old(businesses) && reviews == old(reviews)
      ensures (exists i :: 0 <= i < |old(users)| && (old(users)[i].email == email || old(users)[i].id == id)) ==>
                resp == Fail(BadRequest) && users == old(users)
      ensures (forall i :: 0 <= i < |old(users)| ==> old(users)[i].email != email && old(users)[i].id != id) ==>
                var u := User(id, email, name, passwordHash, UserRole);
                && users == old(users) + [u]
                && resp == Ok(Registered(ClaimsOf(u), Account(id, email, name, UserRole)))
    {
      if exists i :: 0 <= i < |users| && (users[i].email == email || users[i].id == id) {
        return Fail(BadRequest);
      }
      var u := User(id, email, name, passwordHash, UserRole);
      users := users + [u];
      resp := Ok(Registered(ClaimsOf(u), Account(id, email, name, UserRole)));
      ReferencesSurviveInserts(reviews, old(users), businesses, users, businesses);
    }

    /** `GET /api/businesses`: the `where` object built from the query, then
        each selected business, in table order, annotated with its rating. */
    method ListBusinesses(category: Option<string>, search: Option<string>) returns (listed: seq<Rating.RatedBusiness>)
      ensures listed == Rating.RateAll(Catalog.Selection(businesses, category, search), reviews)
    {
      var w := Catalog.BuildWhere(category, search);
      listed := [];
      var i := 0;
      ghost var selection: seq<Business> := [];
      while i < |businesses|
        invariant 0 <= i <= |businesses|
        invariant selection == Catalog.Selection(businesses[..i], category, search)
        invariant listed == Rating.RateAll(selection, reviews)
      {
        var b := businesses[i];
        Catalog.SelectionStep(businesses, i, category, search);
        var keep := Catalog.Satisfies(b, w);
        assert keep == Catalog.Selected(b, category, search);
        if keep {
          Rating.RateAllSnoc(selection, b, reviews);
          selection := selection + [b];
          listed := listed + [Rating.Rate(b, reviews)];
        }
        i := i + 1;
      }
      assert businesses[..i] == businesses;
    }

    /** `GET /api/businesses/:id`. */
    method GetBusiness(id: string) returns (resp: Response<Catalog.Detail>)
      ensures resp == Catalog.BusinessDetail(businesses, reviews, id)
      ensures resp.Fail? <==> forall i :: 0 <= i < |businesses| ==> businesses[i].id != id
    {
      resp := Catalog.BusinessDetail(businesses, reviews, id);
    }

    /** The rows a review insert would not violate: a fresh id and existing
        user and business (foreign keys). */
    ghost predicate Insertable(r: Review)
      reads this
    {
      && (forall i :: 0 <= i < |reviews| ==> reviews[i].id != r.id)
      && (exists u :: 0 <= u < |users| && users[u].id == r.userId)
      && (exists b :: 0 <= b < |businesses| && businesses[b].id == r.businessId)
    }

    /** `POST /api/reviews` behind `authenticateToken`: a gate failure sends
        its status; otherwise the row built from the body and the caller's
        `userId` claim is inserted, and a failing insert (no `userId` claim,
        taken id, unknown user or business) is a 500. */
    method CreateReview(header: Option<string>, verify: Auth.Verifier, body: Moderation.ReviewBody, id: string, now: int)
      returns (resp: Response<Review>)
      requires Valid()
      modifies this
      ensures Valid()
      ensures users == old(users) && businesses == old(businesses)
      ensures Auth.Authenticate(header, verify).Deny? ==>
                resp == Fail(Auth.Authenticate(header, verify).status) && reviews == old(reviews)
      ensures Auth.Authenticate(header, verify).Pass? && Auth.Authenticate(header, verify).user.userId.None? ==>
                resp == Fail(ServerError) && reviews == old(reviews)
      ensures resp.Fail? ==> reviews == old(reviews)
      ensures Auth.Authenticate(header, verify).Pass? && resp.Fail? ==> resp.status == ServerError
      ensures resp.Ok? ==>
                && Auth.Authenticate(header, verify).Pass?
                && Some(resp.body.userId) == Auth.Authenticate(header, verify).user.userId
                && resp.body == Moderation.NewReview(body, resp.body.userId, id, now)
                && reviews == old(reviews) + [resp.body]
      ensures Auth.Authenticate(header, verify).Pass? && Auth.Authenticate(header, verify).user.userId.Some? ==>
                (resp.Ok? <==> old(Insertable(Moderation.NewReview(body, Auth.Authenticate(header, verify).user.userId.value, id, now))))
    {
      var gate := Auth.Authenticate(header, verify);
      if gate.Deny? {
        return Fail(gate.status);
      }
      if gate.user.userId.None? {
        return Fail(ServerError);
      }
      var r := Moderation.NewReview(body, gate.user.userId.value, id, now);
      var taken := exists i :: 0 <= i < |reviews| && reviews[i].id == id;
      var userKnown := exists u :: 0 <= u < |users| && users[u].id == r.userId;
      var businessKnown := exists b :: 0 <= b < |businesses| && businesses[b].id == r.businessId;
      if taken || !userKnown || !businessKnown {
        return Fail(ServerError);
      }
      reviews := reviews + [r];
      resp := Ok(r);
    }

    /** `GET /api/admin/reviews` behind both gates: the PENDING queue. */
    method AdminReviews(header: Option<string>, verify: Auth.Verifier) returns (resp: Response<seq<Review>>)
      ensures Auth.AdminGate(header, verify).Deny? ==> resp == Fail(Auth.AdminGate(header, verify).status)
      ensures resp.Ok? <==> Auth.AdminGate(header, verify).Pass?
      ensures resp.Ok? ==> ReviewQuery.NewestFirst(resp.body)
      ensures resp.Ok? ==>
                forall r :: multiset(resp.body)[r] == (if r.status == Pending then multiset(reviews)[r] else 0)
    {
      var gate := Auth.AdminGate(header, verify);
      if gate.Deny? {
        return Fail(gate.status);
      }
      resp := Ok(Moderation.PendingQueue(reviews));
    }

    /** `PATCH /api/admin/reviews/:id` behind both gates: overwrite the
        status of that one review with the value sent; an unknown id is a 500. */
    method ModerateReview(header: Option<string>, verify: Auth.Verifier, id: string, status: Option<string>)
      returns (resp: Response<Review>)
      requires Valid()
      modifies this
      ensures Valid()
      ensures users == old(users) && businesses == old(businesses)
      ensures Auth.AdminGate(header, verify).Deny? ==>
                resp == Fail(Auth.AdminGate(header, verify).status) && reviews == old(reviews)
      ensures Auth.AdminGate(header, verify).Pass? && (forall i :: 0 <= i < |old(reviews)| ==> old(reviews)[i].id != id) ==>
                resp == Fail(ServerError) && reviews == old(reviews)
      ensures resp.Fail? ==> reviews == old(reviews)
      ensures Auth.AdminGate(header, verify).Pass? && (exists i :: 0 <= i < |old(reviews)| && old(reviews)[i].id == id) ==>
                resp.Ok?
      ensures resp.Ok? ==>
                && Auth.AdminGate(header, verify).Pass?
                && Moderation.UpdateStatus(old(reviews), id, status) == Some(reviews)
                && resp.body in reviews && resp.body.id == id
                && (status.Some? ==> resp.body.status == status.value)
    {
      var gate := Auth.AdminGate(header, verify);
      if gate.Deny? {
        return Fail(gate.status);
      }
      var k := IndexOf(reviews, id, (r: Review) => r.id);
      if k.None? {
        return Fail(ServerError);
      }
      var updated := Moderation.UpdateStatus(reviews, id, status);
      Moderation.UpdateStatusKeepsKeys(reviews, id, status);
      reviews := updated.value;
      resp := Ok(reviews[k.value]);
      ReferencesKept(old(reviews), reviews);
    }

    /** Rewriting rows without touching their keys keeps every reference valid. */
    lemma ReferencesKept(before: seq<Review>, after: seq<Review>)
      requires ReviewsReferenced(before, users, businesses)
      requires |after| == |before|
      requires forall i :: 0 <= i < |before| ==>
                 after[i].userId == before[i].userId && after[i].businessId == before[i].businessId
      ensures ReviewsReferenced(after, users, businesses)
    {
      forall i | 0 <= i < |after|
        ensures HasUser(users, after[i].userId) && HasBusiness(businesses, after[i].businessId)
      {
        assert HasUser(users, before[i].userId) && HasBusiness(businesses, before[i].businessId);
      }
    }

    /** `POST /api/admin/businesses` behind both gates: insert the business;
        a taken id or name fails the insert with 500. */
    method CreateBusiness(header: Option<string>, verify: Auth.Verifier, body: BusinessBody, id: string)
      returns (resp: Response<Business>)
      requires Valid()
      modifies this
      ensures Valid()
      ensures users == old(users) && reviews == old(reviews)
      ensures Auth.AdminGate(header, verify).Deny? ==>
                resp == Fail(Auth.AdminGate(header, verify).status) && businesses == old(businesses)
      ensures resp.Fail? ==> businesses == old(businesses)
      ensures Auth.AdminGate(header, verify).Pass? && resp.Fail? ==> resp.status == ServerError
      ensures resp.Ok? ==>
                && Auth.AdminGate(header, verify).Pass?
                && resp.body == Business(id, body.name, body.description, body.category, body.location, body.imageUrl)
                && businesses == old(businesses) + [resp.body]
      ensures Auth.AdminGate(header, verify).Pass? ==>
                (resp.Ok? <==> forall i :: 0 <= i < |old(businesses)| ==>
                                 old(businesses)[i].id != id && old(businesses)[i].name != body.name)
    {
      var gate := Auth.AdminGate(header, verify);
      if gate.Deny? {
        return Fail(gate.status);
      }
      if exists i :: 0 <= i < |businesses| && (businesses[i].id == id || businesses[i].name == body.name) {
        return Fail(ServerError);
      }
      var b := Business(id, body.name, body.description, body.category, body.location, body.imageUrl);
      businesses := businesses + [b];
      resp := Ok(b);
      ReferencesSurviveInserts(reviews, users, old(businesses), users, businesses);
    }
  }
}
