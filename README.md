# Review backend — a Dafny model

This project models the request-decision and data-projection logic of a
small review-and-rating web backend (`backend/index.js`, an Express server
over a relational store). Users register, browse businesses and submit
reviews. Admins moderate pending reviews and add businesses. The model covers:

- the two middleware gates: `authenticateToken` takes the bearer token and
  asks a verifier for its claims, and `requireAdmin` checks the role claim
  (module `Auth`, on top of `Text.Split`);
- the business list query: the `where` object built from `category` and
  `search`, its meaning (exact category AND case-insensitive substring of
  name OR location), and the rating projection, with `reviewCount` and
  `averageRating` in integer tenths (modules `Catalog`, `Rating`, `Text`);
- the review workflow: submission (author from the token, status always
  PENDING), the admin queue (PENDING reviews, newest first), the moderation
  update (one review's status overwritten by id) and the business detail
  page (APPROVED reviews, newest first, or 404) (modules `Moderation`,
  `ReviewQuery`, `Catalog`);
- the store itself: class `Backend.Store` holds the user, business and
  review tables as sequences. Its methods are the route handlers, and they
  keep the store's constraints (`Valid`): unique ids, unique emails, unique
  business names, and reviews that reference existing users and businesses.

Things the program gets from outside become parameters. JWT verification is
an oracle `Auth.Verifier` that maps a token to decoded claims or to nothing.
The ids and `createdAt` timestamps the store generates, and the bcrypt
password hash, are passed in by the caller.

Modelling choices that follow the code:

- The `Authorization` header's first word is never checked. Any header whose
  second space-separated word is non-empty yields a token (`Basic x` too).
  `Bearer  x`, with two spaces, and `Bearer `, ending after its first space,
  yield the empty word and so get 401.
- The moderation update writes any status string it is given, unchecked. A
  body without `status` leaves the row unchanged, because the store skips an
  undefined field.
- A review insert that the store would reject fails with 500. That happens
  on a taken id, a `businessId` or author that does not exist (foreign keys),
  or a token without a `userId` claim. The handler does not check these
  things before the insert.
- The intended workflow only moves reviews from PENDING to APPROVED or
  REJECTED. The code does not enforce that: the update writes any status
  over any status, and the model does the same.
- The average is `Math.round(avg * 10) / 10`. Computed exactly, this is the
  integer nearest to `10 * sum / n` with halves rounded up, which is
  `(20 * sum + n) div (2 * n)`.

## Model

| member | source | states |
|---|---|---|
| `Text.Split` | backend/index.js:17 | `split(' ')` yields at least one part, no part contains the separator, and joining the parts with it gives back the header |
| `Text.SplitJoin` | backend/index.js:17 | splitting is the exact inverse of joining separator-free parts, so the split is unique |
| `Auth.BearerToken` | backend/index.js:16-19 | a token, when there is one, is non-empty, has no space, and comes from a header that contains a space |
| `Auth.BearerTokenOfHeader` | backend/index.js:17 | whatever the first word, a non-empty second word that ends the header or is followed by a space is the token |
| `Auth.NoTokenAfterEmptyWord` | backend/index.js:17-21 | a header whose first space is followed by another space or by nothing has no token (`"Bearer  x"`, `"Bearer "`) |
| `Auth.Authenticate` | backend/index.js:15-28 | 401 exactly when there is no token; 403 exactly when there is a token and the verifier rejects it; otherwise the request continues with the verifier's claims as `req.user` |
| `Auth.MissingTokenIgnoresVerifier` | backend/index.js:19-23 | without a token the answer is 401 whatever the verifier does, so the verifier is never consulted |
| `Auth.RequireAdmin` | backend/index.js:31-36 | passes exactly when the role claim is the string `ADMIN` and keeps the claims; every other role, including a missing one, gets 403 |
| `Auth.AdminGate` | backend/index.js:171 | the `authenticateToken, requireAdmin` chain (also on lines 188 and 203): a pass carries the authenticated claims with role `ADMIN`, a denial is 401 or 403, and an authentication denial is passed on unchanged |
| `Auth.AdminGateOrder` | backend/index.js:15-36 | on admin routes (authenticate, then require admin) a request without a token gets 401, never 403; it passes exactly when the token verifies and its role is `ADMIN`; every denial is 401 or 403 |
| `Text.Contains` | backend/index.js:84-85 | the scan answers true exactly when the pattern occurs at some offset of the subject |
| `Text.LowerSameIgnoringCase` | backend/index.js:84-85 | two strings fold to the same lower-case string exactly when they differ only in the case of ASCII letters |
| `Text.ContainsIgnoringCase` | backend/index.js:84-85 | `contains` with `mode: 'insensitive'` is true exactly when some stretch of the subject equals the pattern up to letter case |
| `Text.ContainsIgnoringCaseRespectsCase` | backend/index.js:84-85 | changing the letter case of the subject or the pattern never changes the insensitive `contains` answer |
| `Catalog.BuildWhere` | backend/index.js:78-87 | the `where` object holds a business exactly when the category is empty/absent or equal, AND the search is empty/absent or occurs case-insensitively in the name OR the location; empty strings add no key |
| `Catalog.Selection` | backend/index.js:89-102 | the listed businesses are exactly the selected ones, each as often as in the table |
| `Catalog.SearchIgnoresCase` | backend/index.js:82-86 | searches that differ only in letter case select the same businesses |
| `Rating.MeanTenths` | backend/index.js:107-113 | 0 for no ratings; otherwise the nearest tenth of sum/count, halves rounded up, stated as the rounding inequality |
| `Rating.MeanTenthsUnique` | backend/index.js:113 | the rounding inequality has one solution, so the average is the rounded mean and nothing else |
| `Rating.SumConcat` | backend/index.js:108 | the `reduce` sum of a concatenation is the sum of the parts, so the fold's order does not matter |
| `Rating.SumBounds` | backend/index.js:108 | the `reduce` sum of ratings in [lo, hi] lies between n·lo and n·hi |
| `Rating.MeanTenthsBounds` | backend/index.js:107-113 | the rounded mean of ratings in [lo, hi] lies in [lo, hi]: between the lowest and highest rating |
| `Rating.MeanTenthsOfStars` | backend/index.js:107-113 | with ratings in 1..5, a non-zero average comes from at least one rating and lies in [1.0, 5.0] |
| `Rating.ApprovedRatings` | backend/index.js:92-100 | the included overall ratings are at most one per review of the table |
| `Rating.ApprovedRatingsAreApprovedRows` | backend/index.js:92-100 | the included overall ratings are, in table order and with repetitions, exactly the overall ratings of that business's APPROVED reviews |
| `Rating.ApprovedRatingsCount` | backend/index.js:92-100 | there is one included rating per APPROVED review of that business, counted over the table's positions |
| `Rating.ApprovedRatingsMembers` | backend/index.js:92-100 | the included ratings are exactly the overall ratings of that business's APPROVED reviews |
| `Rating.Rate` | backend/index.js:89-116 | the business is kept; its `reviews` array holds the four ratings of each APPROVED review of the business, in table order; `reviewCount` is their number; `averageRating` is 0 when that is 0 and otherwise the nearest tenth of their overall mean |
| `Rating.RateAll` | backend/index.js:105-116 | the `map` rates every business in the list, one entry per business, in the same order |
| `Rating.RateWithinStars` | backend/index.js:105-116 | with approved ratings in [lo, hi] within 1..5, the average is 0 exactly when the count is 0, and otherwise lies between lo and hi |
| `Entities.IndexOf` | backend/index.js:127 | the `findUnique`/`update` lookup by id (also line 193): it finds a row with that id, and finds none exactly when no row has it |
| `Catalog.BusinessDetail` | backend/index.js:124-139 | 404 exactly when no business has the id; otherwise that business with exactly its APPROVED reviews, newest first |
| `ReviewQuery.WithStatus` | backend/index.js:173-174 | the rows with the given status, each as often as in the table, and no other rows |
| `ReviewQuery.ApprovedFor` | backend/index.js:129-130 | the APPROVED rows of one business, each as often as in the table, and no other rows |
| `ReviewQuery.InApprovedFor` | backend/index.js:129-130 | a review is among a business's approved reviews exactly when it is an APPROVED row of that business |
| `ReviewQuery.NewestFirstPairwise` | backend/index.js:132 | in a newest-first sequence every earlier review is at least as new as every later one |
| `ReviewQuery.SortNewestFirst` | backend/index.js:132 | `orderBy: { createdAt: 'desc' }`: a permutation of its input, ordered by `createdAt` descending |
| `Moderation.NewReview` | backend/index.js:150-161 | the inserted row has status PENDING and the caller's `userId`; content, the four ratings and `businessId` come from the body |
| `Moderation.IgnoredBodyFields` | backend/index.js:150-161 | a `status` or `userId` in the request body never changes the stored row, which is always PENDING and authored by the token's user |
| `Moderation.PendingQueue` | backend/index.js:173-180 | the admin queue is exactly the PENDING reviews, newest first |
| `Moderation.InPendingQueue` | backend/index.js:173-174 | a review is in the admin queue exactly when it is a PENDING row of the table |
| `Moderation.UpdateStatus` | backend/index.js:190-199 | fails exactly when no review has the id; otherwise the table keeps its length, the review with that id gets the sent status whatever it is, and every other field and every other review stays the same |
| `Moderation.UpdateStatusKeepsKeys` | backend/index.js:192-195 | the update changes no id, author or business reference, and ids stay unique |
| `Moderation.ApprovalPublishes` | backend/index.js:192-195 | approving a pending review moves it out of the admin queue and into its business's approved reviews |
| `Backend.ClaimsOf` | backend/index.js:52 | the signed token carries the user's id as `userId` and the user's role as `role` |
| `Backend.RegisteredIsNotAdmin` | backend/index.js:44-52 | a freshly registered user (default role USER) is refused by `requireAdmin` |
| `Backend.Store.Register` | backend/index.js:39-57 | a taken email or id gives 400 and changes nothing; otherwise exactly one user with role USER is appended and its claims are returned |
| `Backend.Store.ListBusinesses` | backend/index.js:76-122 | the response is the selected businesses in table order, each rated from the current reviews (its approved ratings, their count and their rounded mean), and nothing changes |
| `Backend.Store.GetBusiness` | backend/index.js:124-145 | the detail response, or 404 exactly when no business has the id |
| `Backend.Store.CreateReview` | backend/index.js:148-168 | a gate denial sends 401/403 and stores nothing; after the gate passes, every failure is 500 (a token without `userId`, or an insert the store rejects) and stores nothing; otherwise exactly the PENDING row with the caller's `userId` is appended and returned |
| `Backend.Store.AdminReviews` | backend/index.js:171-186 | denied requests get the gate's 401/403; otherwise the response is exactly the PENDING reviews, newest first |
| `Backend.Store.ModerateReview` | backend/index.js:188-201 | denied requests get 401/403; an unknown id gives 500; every failure leaves the table unchanged, and an admin request for an existing id always succeeds; otherwise the table becomes the status update of that one review, and the response is the updated row |
| `Backend.Store.CreateBusiness` | backend/index.js:203-221 | denied requests get 401/403; after the gate passes every failure is 500 (a taken id or name), and a failure changes nothing; otherwise exactly one business is appended and returned |

## Left out

- Login (`POST /api/login`, backend/index.js:59-73): a lookup by email and a bcrypt comparison, which is cryptography. It is not modelled.
- Cryptography: bcrypt hashing and comparison, and JWT signing and verification. Verification is the `Auth.Verifier` oracle. Signing is represented only by the claims it would sign (`Backend.ClaimsOf`).
- Rating.MeanTenths: it uses exact rational arithmetic, not IEEE doubles. `Math.round(avg * 10) / 10` on floats can differ from the exact rounding when `10 * sum / n` is exactly a half (an `.x5` boundary), and the response holds a float, not tenths.
- Case-insensitive matching folds ASCII letters only. The database collation behind `mode: 'insensitive'` may fold more characters.
- The joined display fields are not modelled: the author name on detail reviews (line 131), and the author name, email and business name on queue entries (lines 175-178). The review rows themselves and their order are modelled.
- The order among reviews with equal `createdAt`, and the order of an unordered `findMany`, are left to the store. The model fixes one order: table order for the list and for each business's included ratings (that `include` has no `orderBy`), and a fixed newest-first sort.
- JSON bodies are typed records. A missing or ill-typed body field, which would make the store's insert fail with 500 (or 400 in register), is not modelled, except for an absent `status` in the moderation update, which leaves the row unchanged. A `null` or non-string `status` would make that update throw and answer 500; the model does not capture that.
- The store's own failures (connection loss and the like, answered with 500) are not modelled. Neither are concurrency between requests, Express routing, CORS and JSON middleware, and `app.listen`.
- Repeated query parameters (`?category=a&category=b`, which Express turns into an array) are not modelled. Parameters are absent or a single string.
- The client pages (frontend/) and the seed script (backend/seed.js) are not part of this model.
