/** The public business routes: the filtered list with ratings and the
    detail page with approved reviews. */
module Catalog {
  import opened Http
  import opened Entities
  import Text
  import ReviewQuery

  /** A query-string value that JavaScript treats as truthy: present and non-empty. */
  predicate Given(param: Option<string>)
  {
    param.Some? && param.value != []
  }

  /** The Prisma `where` object of the list query; an absent key adds no condition. */
  datatype Where = Where(category: Option<string>, search: Option<string>)

  /** How the query layer reads a `where` object: the category exactly, the
      search case-insensitively inside the name OR the location, both ANDed. */
  predicate Satisfies(b: Business, w: Where)
  {
    && (w.category.Some? ==> b.category == w.category.value)
    && (w.search.Some? ==>
          Text.ContainsIgnoringCase(b.name, w.search.value) ||
          Text.ContainsIgnoringCase(b.location, w.search.value))
  }

  /** Which businesses the list promises for the given query parameters:
      an empty or absent parameter is no filter. */
  predicate Selected(b: Business, category: Option<string>, search: Option<string>)
  {
    && (Given(category) ==> b.category == category.value)
    && (Given(search) ==>
          Text.ContainsIgnoringCase(b.name, search.value) ||
          Text.ContainsIgnoringCase(b.location, search.value))
  }

  /** Builds the `where` object key by key, as the list handler does. */
  method BuildWhere(category: Option<string>, search: Option<string>) returns (w: Where)
    ensures forall b :: Satisfies(b, w) <==> Selected(b, category, search)
    ensures w.category.Some? ==> w.category.value != []
    ensures w.search.Some? ==> w.search.value != []
  {
    w := Where(None, None);
    if Given(category) {
      w := w.(category := category);
    }
    if Given(search) {
      w := w.(search := search);
    }
  }

  /** The businesses the list returns, in table order. */
  function Selection(bs: seq<Business>, category: Option<string>, search: Option<string>): (out: seq<Business>)
    ensures |out| <= |bs|
    ensures forall b :: multiset(out)[b] == if Selected(b, category, search) then multiset(bs)[b] else 0
  {
    if bs == [] then []
    else
      var init, last := bs[..|bs| - 1], bs[|bs| - 1];
      assert bs == init + [last];
      Selection(init, category, search) + (if Selected(last, category, search) then [last] else [])
  }

  /** Selecting over one more business extends the selection by at most that business. */
  lemma SelectionStep(bs: seq<Business>, i: nat, category: Option<string>, search: Option<string>)
    requires i < |bs|
    ensures Selection(bs[..i + 1], category, search) ==
            Selection(bs[..i], category, search) + (if Selected(bs[i], category, search) then [bs[i]] else [])
  {
    assert bs[..i + 1][..i] == bs[..i];
  }

  /** The search is case-insensitive: changing the case of its letters
      selects the same businesses. */
  lemma SearchIgnoresCase(b: Business, category: Option<string>, search: string, search': string)
    requires Text.SameIgnoringCase(search, search')
    ensures Selected(b, category, Some(search)) == Selected(b, category, Some(search'))
  {
    Text.ContainsIgnoringCaseRespectsCase(b.name, b.name, search, search');
    Text.ContainsIgnoringCaseRespectsCase(b.location, b.location, search, search');
  }

  /** The detail response: the business and its approved reviews. */
  datatype Detail = Detail(business: Business, reviews: seq<Review>)

  /** `GET /api/businesses/:id`: 404 when no business has the id, otherwise
      the business with exactly its APPROVED reviews, newest first. */
  function BusinessDetail(bs: seq<Business>, rs: seq<Review>, id: string): (resp: Response<Detail>)
    ensures resp.Fail? <==> forall i :: 0 <= i < |bs| ==> bs[i].id != id
    ensures resp.Fail? ==> resp.status == NotFound
    ensures resp.Ok? ==> resp.body.business in bs && resp.body.business.id == id
    ensures resp.Ok? ==> ReviewQuery.NewestFirst(resp.body.reviews)
    ensures resp.Ok? ==>
              forall r :: multiset(resp.body.reviews)[r] ==
                            (if r.status == Approved && r.businessId == id then multiset(rs)[r] else 0)
  {
    match IndexOf(bs, id, (b: Business) => b.id)
    case None => Fail(NotFound)
    case Some(k) => Ok(Detail(bs[k], ReviewQuery.SortNewestFirst(ReviewQuery.ApprovedFor(rs, id))))
  }
}
