/** ReviewService: one review per paid booking, and the washer's average
    rating and review count, recomputed over all of the washer's reviews after
    every change. The invariant the recomputation keeps is RatingsAccurate:
    each washer's totalReviews is the number of its reviews, and its
    averageRating the mean of their ratings rounded to two decimals.

    The service relies on a `review` relation on bookings and on the columns
    averageRating and totalReviews of washers; the model gives the entities
    those, as the service assumes. */
module ReviewService {
  import opened Wrappers
  import opened Entities
  import opened Store
  import WS = WasherService
  import BS = BookingService
  import RDTO = CreateReviewDto

  // ---------------------------------------------------------------------
  // The rating aggregate

  /** `booking.review` once the relation is joined: some review of that booking. */
  predicate HasReview(reviews: map<Id, Review>, bookingId: Id) {
    exists k :: k in reviews && reviews[k].booking == bookingId
  }

  predicate ForWasher(reviews: map<Id, Review>, k: Id, w: Id) {
    k in reviews && reviews[k].washer == w
  }

  /** The reviews of washer `w`. */
  function ReviewsOf(reviews: map<Id, Review>, w: Id): set<Id> {
    set k | k in reviews && reviews[k].washer == w
  }

  /** The reviews of washer `w` among the keys below `n`. */
  function ReviewsBelow(reviews: map<Id, Review>, w: Id, n: nat): set<Id> {
    set k | k in reviews && k < n && reviews[k].washer == w
  }

  /** `reviews.length` of the washer's reviews, over the keys below `n`. */
  function RatingCount(reviews: map<Id, Review>, w: Id, n: nat): nat {
    if n == 0 then 0
    else RatingCount(reviews, w, n - 1) + (if ForWasher(reviews, n - 1, w) then 1 else 0)
  }

  /** `reviews.reduce((sum, review) => sum + review.rating, 0)` over the keys below `n`. */
  function RatingSum(reviews: map<Id, Review>, w: Id, n: nat): int {
    if n == 0 then 0
    else RatingSum(reviews, w, n - 1) + (if ForWasher(reviews, n - 1, w) then reviews[n - 1].rating else 0)
  }

  /** The count is the number of the washer's reviews below the bound. */
  lemma {:induction false} CountIsCardinality(reviews: map<Id, Review>, w: Id, n: nat)
    ensures RatingCount(reviews, w, n) == |ReviewsBelow(reviews, w, n)|
  {
    if n == 0 {
      assert ReviewsBelow(reviews, w, 0) == {};
    } else {
      CountIsCardinality(reviews, w, n - 1);
      var prev := ReviewsBelow(reviews, w, n - 1);
      if ForWasher(reviews, n - 1, w) {
        assert ReviewsBelow(reviews, w, n) == prev + {n - 1};
      } else {
        assert ReviewsBelow(reviews, w, n) == prev;
      }
    }
  }

  /** Once every key is below the bound, the count is the number of all the
      washer's reviews. */
  lemma CountIsReviewsOf(reviews: map<Id, Review>, w: Id, n: nat)
    requires KeysBelow(reviews, n)
    ensures RatingCount(reviews, w, n) == |ReviewsOf(reviews, w)|
  {
    CountIsCardinality(reviews, w, n);
    assert ReviewsBelow(reviews, w, n) == ReviewsOf(reviews, w);
  }

  /** Two review tables that agree on the washer's reviews below `n`. */
  predicate SameFor(r1: map<Id, Review>, r2: map<Id, Review>, w: Id, n: nat) {
    forall k: Id :: k < n ==> && (ForWasher(r1, k, w) <==> ForWasher(r2, k, w))
                              && (ForWasher(r1, k, w) ==> r1[k].rating == r2[k].rating)
  }

  /** Reviews of other washers do not move a washer's aggregate. */
  lemma {:induction false} AgreeingReviews(r1: map<Id, Review>, r2: map<Id, Review>, w: Id, n: nat)
    requires SameFor(r1, r2, w, n)
    ensures RatingCount(r1, w, n) == RatingCount(r2, w, n)
    ensures RatingSum(r1, w, n) == RatingSum(r2, w, n)
  {
    if n > 0 {
      AgreeingReviews(r1, r2, w, n - 1);
    }
  }

  /** Counting past the last key adds nothing. */
  lemma {:induction false} PastTheKeys(reviews: map<Id, Review>, w: Id, n: nat, m: nat)
    requires KeysBelow(reviews, n) && n <= m
    ensures RatingCount(reviews, w, m) == RatingCount(reviews, w, n)
    ensures RatingSum(reviews, w, m) == RatingSum(reviews, w, n)
    decreases m - n
  {
    if n < m {
      PastTheKeys(reviews, w, n, m - 1);
      assert !ForWasher(reviews, m - 1, w);
    }
  }

  /** averageRating: 0 without reviews, else Number((sum / count).toFixed(2)). */
  function Average(sum: int, count: nat): real {
    if count == 0 then 0.0 else WS.Round2(sum as real / count as real)
  }

  /** The washer row after updateWasherRating. */
  function Rated(washer: Washer, reviews: map<Id, Review>, w: Id, n: nat): (v: Washer)
    ensures v.totalReviews == RatingCount(reviews, w, n)
    ensures v.(averageRating := washer.averageRating, totalReviews := washer.totalReviews) == washer
  {
    washer.(averageRating := Average(RatingSum(reviews, w, n), RatingCount(reviews, w, n)),
            totalReviews := RatingCount(reviews, w, n))
  }

  /** Washer `w`'s stored aggregate matches its reviews below `n`. */
  predicate AccurateFor(washers: map<Id, Washer>, reviews: map<Id, Review>, n: nat, w: Id)
    requires w in washers
  {
    washers[w] == Rated(washers[w], reviews, w, n)
  }

  predicate RatingsAccurate(washers: map<Id, Washer>, reviews: map<Id, Review>, n: nat) {
    forall w :: w in washers ==> AccurateFor(washers, reviews, n, w)
  }

  /** The review table changed only for washer `w`: every other washer keeps
      an accurate aggregate. */
  lemma OthersStayAccurate(washers: map<Id, Washer>, r0: map<Id, Review>, n0: nat,
                           r1: map<Id, Review>, n1: nat, w: Id)
    requires RatingsAccurate(washers, r0, n0) && KeysBelow(r0, n0) && n0 <= n1
    requires forall v :: v in washers && v != w ==> SameFor(r0, r1, v, n1)
    ensures forall v :: v in washers && v != w ==> AccurateFor(washers, r1, n1, v)
  {
    forall v | v in washers && v != w
      ensures AccurateFor(washers, r1, n1, v)
    {
      AgreeingReviews(r0, r1, v, n1);
      PastTheKeys(r0, v, n0, n1);
    }
  }

  /** Every stored rating is a validated one, 1 to 5. */
  predicate RatingsInRange(reviews: map<Id, Review>) {
    forall k :: k in reviews ==> RDTO.MinRating <= reviews[k].rating <= RDTO.MaxRating
  }

  lemma {:induction false} SumBounds(reviews: map<Id, Review>, w: Id, n: nat)
    requires RatingsInRange(reviews)
    ensures RatingCount(reviews, w, n) * RDTO.MinRating <= RatingSum(reviews, w, n)
    ensures RatingSum(reviews, w, n) <= RatingCount(reviews, w, n) * RDTO.MaxRating
  {
    if n > 0 {
      SumBounds(reviews, w, n - 1);
    }
  }

  /** Rounding to two decimals keeps a value within whole-number bounds. */
  lemma Round2Within(d: real, lo: int, hi: int)
    requires 0 <= lo && lo as real <= d <= hi as real
    ensures lo as real <= WS.Round2(d) <= hi as real
  {
    var f := (d * 100.0 + 0.5).Floor;
    assert lo * 100 <= f;
    assert f <= hi * 100;
    assert (f as real) / 100.0 >= (lo * 100) as real / 100.0;
    assert (f as real) / 100.0 <= (hi * 100) as real / 100.0;
  }

  /** A sum of `c` values each between `lo` and `hi` has its mean there too. */
  lemma MeanWithin(s: int, c: nat, lo: int, hi: int)
    requires c > 0 && c * lo <= s <= c * hi
    ensures lo as real <= s as real / c as real <= hi as real
  {
    var d := s as real / c as real;
    var cr := c as real;
    assert d * cr == s as real;
    assert (c * lo) as real == cr * (lo as real);
    assert (c * hi) as real == cr * (hi as real);
  }

  /** With validated ratings, a washer with reviews averages between 1 and 5. */
  lemma AverageInRange(reviews: map<Id, Review>, w: Id, n: nat)
    requires RatingsInRange(reviews)
    ensures RatingCount(reviews, w, n) == 0 ==> Average(RatingSum(reviews, w, n), RatingCount(reviews, w, n)) == 0.0
    ensures RatingCount(reviews, w, n) > 0 ==>
              RDTO.MinRating as real <= Average(RatingSum(reviews, w, n), RatingCount(reviews, w, n)) <= RDTO.MaxRating as real
  {
    var c := RatingCount(reviews, w, n);
    var s := RatingSum(reviews, w, n);
    if c > 0 {
      SumBounds(reviews, w, n);
      MeanWithin(s, c, RDTO.MinRating, RDTO.MaxRating);
      Round2Within(s as real / c as real, RDTO.MinRating, RDTO.MaxRating);
    }
  }

  /** updateWasherRating: NotFound for an unknown washer; otherwise the
      washer's count and rounded average are recomputed over all of its
      reviews, and nothing else changes. */
  method UpdateWasherRating(db: Database, w: Id) returns (r: Result<()>)
    requires db.Valid()
    modifies db`washers
    ensures db.Valid()
    ensures w !in old(db.washers) ==> r == Fail(NotFound) && db.washers == old(db.washers)
    ensures w in old(db.washers) ==> r == Ok(())
    ensures w in old(db.washers) ==> db.washers == old(db.washers)[w := Rated(old(db.washers)[w], db.reviews, w, db.nextId)]
    ensures w in old(db.washers) ==> AccurateFor(db.washers, db.reviews, db.nextId, w)
    ensures w in old(db.washers) ==> db.washers[w].totalReviews == |ReviewsOf(db.reviews, w)|
    ensures (forall v :: v in old(db.washers) && v != w ==> AccurateFor(old(db.washers), db.reviews, db.nextId, v))
            ==> RatingsAccurate(db.washers, db.reviews, db.nextId)
    ensures w in old(db.washers) && RatingsInRange(db.reviews) ==>
              || (db.washers[w].totalReviews == 0 && db.washers[w].averageRating == 0.0)
              || (RDTO.MinRating as real <= db.washers[w].averageRating <= RDTO.MaxRating as real)
  {
    if w !in db.washers {
      return Fail(NotFound);
    }
    var count: nat := 0;
    var sum: int := 0;
    var k: nat := 0;
    while k < db.nextId
      invariant k <= db.nextId
      invariant count == RatingCount(db.reviews, w, k)
      invariant sum == RatingSum(db.reviews, w, k)
    {
      if k in db.reviews && db.reviews[k].washer == w {
        count := count + 1;
        sum := sum + db.reviews[k].rating;
      }
      k := k + 1;
    }
    CountIsReviewsOf(db.reviews, w, db.nextId);
    if RatingsInRange(db.reviews) {
      AverageInRange(db.reviews, w, db.nextId);
    }
    var average := if count == 0 then 0.0 else WS.Round2(sum as real / count as real);
    db.washers := db.washers[w := db.washers[w].(averageRating := average, totalReviews := count)];
    r := Ok(());
  }

  // ---------------------------------------------------------------------
  // createReview

  /** `booking.service.washer` once joined: the washer's key, if the service
      still exists and has a washer. */
  function ServiceWasherKey(db: Database, serviceId: Id): (w: Option<Id>)
    reads db`services, db`washers
    ensures w.Some? <==> db.ServiceWasher(serviceId).WasherUser?
    ensures w.Some? ==> w.value in db.washers && db.ServiceWasher(serviceId) == WasherUser(db.washers[w.value].user)
  {
    if serviceId in db.services && db.services[serviceId].washer.Some? && db.services[serviceId].washer.value in db.washers
    then db.services[serviceId].washer
    else None
  }

  /** Exactly when createReview stores a review. */
  predicate CreateReviewAccepts(db: Database, reviews: map<Id, Review>, userId: Id, bookingId: Id)
    reads db`bookings, db`services, db`washers
  {
    && bookingId in db.bookings
    && db.bookings[bookingId].user == userId
    && db.bookings[bookingId].status == Paid
    && db.bookings[bookingId].paymentStatus == Authorized
    && !HasReview(reviews, bookingId)
    && db.ServiceWasher(db.bookings[bookingId].service).WasherUser?
  }

  /** createReview: NotFound for an unknown booking, BadRequest unless it is
      the caller's and `paid` with payment `authorized`, Conflict when it
      already has a review, a 500 when its service is gone (`booking.service`
      is null), NotFound when the service has no washer; otherwise one review
      for the service's washer, whose aggregate is then recomputed. */
  method CreateReview(db: Database, userId: Id, bookingId: Id, input: RDTO.ReviewInput) returns (r: Result<Id>)
    requires db.Valid()
    modifies db`reviews, db`nextId, db`washers
    ensures db.Valid()
    ensures bookingId !in db.bookings ==> r == Fail(NotFound)
    ensures bookingId in db.bookings && db.bookings[bookingId].user != userId ==> r == Fail(BadRequest)
    ensures (&& bookingId in db.bookings && db.bookings[bookingId].user == userId
             && (db.bookings[bookingId].status != Paid || db.bookings[bookingId].paymentStatus != Authorized))
            ==> r == Fail(BadRequest)
    ensures (&& bookingId in db.bookings && db.bookings[bookingId].user == userId
             && db.bookings[bookingId].status == Paid && db.bookings[bookingId].paymentStatus == Authorized)
            ==> (&& (HasReview(old(db.reviews), bookingId) ==> r == Fail(Conflict))
                 && (!HasReview(old(db.reviews), bookingId) && db.ServiceWasher(db.bookings[bookingId].service).NoService?
                     ==> r == Fail(InternalServerError))
                 && (!HasReview(old(db.reviews), bookingId) && db.ServiceWasher(db.bookings[bookingId].service).NoWasher?
                     ==> r == Fail(NotFound)))
    ensures r.Ok? <==> CreateReviewAccepts(db, old(db.reviews), userId, bookingId)
    ensures r.Fail? ==> db.reviews == old(db.reviews) && db.washers == old(db.washers)
    ensures r.Ok? ==> && bookingId in db.bookings
                      && ServiceWasherKey(db, db.bookings[bookingId].service).Some?
                      && var w := ServiceWasherKey(db, db.bookings[bookingId].service).value;
                         && r.value !in old(db.reviews)
                         && db.reviews == old(db.reviews)[r.value := Review(userId, bookingId, w, input.rating, input.comment)]
                         && |ReviewsOf(db.reviews, w)| == |ReviewsOf(old(db.reviews), w)| + 1
                         && db.washers[w].totalReviews == |ReviewsOf(db.reviews, w)|
                         && w in old(db.washers)
                         && db.washers == old(db.washers)[w := Rated(old(db.washers)[w], db.reviews, w, db.nextId)]
    ensures r.Ok? ==> HasReview(db.reviews, bookingId)
    ensures RatingsAccurate(old(db.washers), old(db.reviews), old(db.nextId)) ==>
              RatingsAccurate(db.washers, db.reviews, db.nextId)
    ensures RatingsInRange(old(db.reviews)) && RDTO.MinRating <= input.rating <= RDTO.MaxRating ==>
              RatingsInRange(db.reviews)
  {
    if bookingId !in db.bookings {
      return Fail(NotFound);
    }
    var b := db.bookings[bookingId];
    if b.user != userId {
      return Fail(BadRequest);
    }
    if b.status != Paid || b.paymentStatus != Authorized {
      return Fail(BadRequest);
    }
    if k :| k in db.reviews && db.reviews[k].booking == bookingId {
      return Fail(Conflict);
    }
    if b.service !in db.services {
      // booking.service is null: reading .washer throws
      return Fail(InternalServerError);
    }
    var w := ServiceWasherKey(db, b.service);
    if w.None? {
      return Fail(NotFound);
    }
    var id := SaveReview(db, Review(userId, bookingId, w.value, input.rating, input.comment));
    assert db.reviews[id].booking == bookingId;
    r := Ok(id);
  }

  /** A review stored under a fresh key joins its washer's reviews and
      leaves every other washer's reviews below any bound as they were. */
  lemma InsertReview(r0: map<Id, Review>, id: Id, review: Review, r1: map<Id, Review>)
    requires id !in r0 && r1 == r0[id := review]
    ensures ReviewsOf(r1, review.washer) == ReviewsOf(r0, review.washer) + {id}
    ensures |ReviewsOf(r1, review.washer)| == |ReviewsOf(r0, review.washer)| + 1
    ensures forall v, n :: v != review.washer ==> SameFor(r0, r1, v, n)
  {
    assert ReviewsOf(r1, review.washer) == ReviewsOf(r0, review.washer) + {id};
  }

  /** `reviewRepository.save` of a new review, then updateWasherRating of its
      washer. */
  method SaveReview(db: Database, review: Review) returns (id: Id)
    requires db.Valid() && review.washer in db.washers
    modifies db`reviews, db`nextId, db`washers
    ensures db.Valid()
    ensures id !in old(db.reviews) && db.reviews == old(db.reviews)[id := review]
    ensures review.washer in db.washers
    ensures |ReviewsOf(db.reviews, review.washer)| == |ReviewsOf(old(db.reviews), review.washer)| + 1
    ensures db.washers[review.washer].totalReviews == |ReviewsOf(db.reviews, review.washer)|
    ensures RatingsAccurate(old(db.washers), old(db.reviews), old(db.nextId)) ==>
              RatingsAccurate(db.washers, db.reviews, db.nextId)
    ensures db.washers.Keys == old(db.washers).Keys
    ensures db.washers == old(db.washers)[review.washer := Rated(old(db.washers)[review.washer], db.reviews, review.washer, db.nextId)]
  {
    ghost var r0, n0 := db.reviews, db.nextId;
    id := db.NewId();
    db.reviews := db.reviews[id := review];
    InsertReview(r0, id, review, db.reviews);
    if RatingsAccurate(db.washers, r0, n0) {
      OthersStayAccurate(db.washers, r0, n0, db.reviews, db.nextId, review.washer);
    }
    var rated := UpdateWasherRating(db, review.washer);
  }

  // ---------------------------------------------------------------------
  // updateReview, deleteReview

  /** `Partial<CreateReviewDto>`: the body of an update. The partial type
      reaches the validation pipe as a plain object, so nothing is validated. */
  datatype ReviewPatch = ReviewPatch(rating: Option<int>, comment: Option<string>)

  /** The fields an update copies: each one that is not undefined. */
  function Patched(review: Review, patch: ReviewPatch): (v: Review)
    ensures v.rating == (if patch.rating.Some? then patch.rating.value else review.rating)
    ensures v.comment == (if patch.comment.Some? then patch.comment else review.comment)
    ensures v.(rating := review.rating, comment := review.comment) == review
  {
    review.(rating := if patch.rating.Some? then patch.rating.value else review.rating,
            comment := if patch.comment.Some? then patch.comment else review.comment)
  }

  /** updateReview as written: the review is loaded with its washer only, so
      `review.user.id` is a TypeError. Every existing review fails with a 500
      before anything is saved. */
  method UpdateReviewAsWritten(db: Database, reviewId: Id, userId: Id, patch: ReviewPatch) returns (r: Result<Review>)
    requires db.Valid()
    ensures r.Fail?
    ensures r.err == NotFound <==> reviewId !in db.reviews
    ensures r.err != NotFound ==> r.err == InternalServerError
  {
    if reviewId !in db.reviews {
      return Fail(NotFound);
    }
    // review.user is undefined here: reading .id throws
    r := Fail(InternalServerError);
  }

  /** updateReview as intended: NotFound, BadRequest for another user's
      review; otherwise the supplied fields are saved and the washer's
      aggregate recomputed. A review whose washer is gone is saved and then
      fails on `review.washer.id`. */
  method UpdateReview(db: Database, reviewId: Id, userId: Id, patch: ReviewPatch) returns (r: Result<Review>)
    requires db.Valid()
    modifies db`reviews, db`washers
    ensures db.Valid()
    ensures reviewId !in old(db.reviews) ==> r == Fail(NotFound)
    ensures reviewId in old(db.reviews) && old(db.reviews)[reviewId].user != userId ==> r == Fail(BadRequest)
    ensures r.Ok? <==> (&& reviewId in old(db.reviews) && old(db.reviews)[reviewId].user == userId
                        && old(db.reviews)[reviewId].washer in old(db.washers))
    ensures r.Fail? && r.err != InternalServerError ==> db.reviews == old(db.reviews) && db.washers == old(db.washers)
    ensures (&& reviewId in old(db.reviews) && old(db.reviews)[reviewId].user == userId
             && old(db.reviews)[reviewId].washer !in old(db.washers)) ==>
              && r == Fail(InternalServerError)
              && db.reviews == old(db.reviews)[reviewId := Patched(old(db.reviews)[reviewId], patch)]
              && db.washers == old(db.washers)
    ensures r.Ok? ==> r.value == Patched(old(db.reviews)[reviewId], patch)
    ensures r.Ok? ==> db.reviews == old(db.reviews)[reviewId := r.value]
    ensures r.Ok? ==> r.value.washer in db.washers && db.washers[r.value.washer].totalReviews == |ReviewsOf(db.reviews, r.value.washer)|
    ensures r.Ok? ==> && r.value.washer in old(db.washers)
                      && db.washers == old(db.washers)[r.value.washer := Rated(old(db.washers)[r.value.washer], db.reviews, r.value.washer, db.nextId)]
    ensures RatingsAccurate(old(db.washers), old(db.reviews), db.nextId) ==>
              RatingsAccurate(db.washers, db.reviews, db.nextId)
  {
    if reviewId !in db.reviews {
      return Fail(NotFound);
    }
    var review := db.reviews[reviewId];
    if review.user != userId {
      return Fail(BadRequest);
    }
    ghost var r0 := db.reviews;
    var v := Patched(review, patch);
    db.reviews := db.reviews[reviewId := v];
    if RatingsAccurate(db.washers, r0, db.nextId) {
      OthersStayAccurate(db.washers, r0, db.nextId, db.reviews, db.nextId, review.washer);
    }
    if review.washer !in db.washers {
      // review.washer is null: reading .id throws
      return Fail(InternalServerError);
    }
    var rated := UpdateWasherRating(db, review.washer);
    r := Ok(v);
  }

  /** deleteReview as written: the same TypeError on `review.user.id`; nothing
      is removed. */
  method DeleteReviewAsWritten(db: Database, reviewId: Id, userId: Id) returns (r: Result<()>)
    requires db.Valid()
    ensures r.Fail?
    ensures r.err == NotFound <==> reviewId !in db.reviews
    ensures r.err != NotFound ==> r.err == InternalServerError
  {
    if reviewId !in db.reviews {
      return Fail(NotFound);
    }
    // review.user is undefined here: reading .id throws
    r := Fail(InternalServerError);
  }

  /** deleteReview as intended: NotFound, BadRequest for another user's
      review, a 500 before removal when the review's washer is gone;
      otherwise the review is removed and the washer's aggregate recomputed. */
  method DeleteReview(db: Database, reviewId: Id, userId: Id) returns (r: Result<()>)
    requires db.Valid()
    modifies db`reviews, db`washers
    ensures db.Valid()
    ensures reviewId !in old(db.reviews) ==> r == Fail(NotFound)
    ensures reviewId in old(db.reviews) && old(db.reviews)[reviewId].user != userId ==> r == Fail(BadRequest)
    ensures (&& reviewId in old(db.reviews) && old(db.reviews)[reviewId].user == userId
             && old(db.reviews)[reviewId].washer !in old(db.washers)) ==> r == Fail(InternalServerError)
    ensures r.Ok? <==> (&& reviewId in old(db.reviews) && old(db.reviews)[reviewId].user == userId
                        && old(db.reviews)[reviewId].washer in old(db.washers))
    ensures r.Fail? ==> db.reviews == old(db.reviews) && db.washers == old(db.washers)
    ensures r.Ok? ==> db.reviews == old(db.reviews) - {reviewId}
    ensures r.Ok? ==> var w := old(db.reviews)[reviewId].washer;
                      && |ReviewsOf(db.reviews, w)| + 1 == |ReviewsOf(old(db.reviews), w)|
                      && w in db.washers
                      && db.washers[w].totalReviews == |ReviewsOf(db.reviews, w)|
                      && w in old(db.washers)
                      && db.washers == old(db.washers)[w := Rated(old(db.washers)[w], db.reviews, w, db.nextId)]
    ensures r.Ok? ==> !HasReview(db.reviews, old(db.reviews)[reviewId].booking) ||
                      exists k :: k in old(db.reviews) && k != reviewId && old(db.reviews)[k].booking == old(db.reviews)[reviewId].booking
    ensures RatingsAccurate(old(db.washers), old(db.reviews), db.nextId) ==>
              RatingsAccurate(db.washers, db.reviews, db.nextId)
    ensures RatingsInRange(old(db.reviews)) ==> RatingsInRange(db.reviews)
  {
    if reviewId !in db.reviews {
      return Fail(NotFound);
    }
    var review := db.reviews[reviewId];
    if review.user != userId {
      return Fail(BadRequest);
    }
    if review.washer !in db.washers {
      // review.washer is null: reading .id throws
      return Fail(InternalServerError);
    }
    ghost var r0 := db.reviews;
    db.reviews := db.reviews - {reviewId};
    assert ReviewsOf(r0, review.washer) == ReviewsOf(db.reviews, review.washer) + {reviewId};
    if RatingsAccurate(db.washers, r0, db.nextId) {
      OthersStayAccurate(db.washers, r0, db.nextId, db.reviews, db.nextId, review.washer);
    }
    var rated := UpdateWasherRating(db, review.washer);
    r := Ok(());
  }

  // ---------------------------------------------------------------------
  // canUserReviewBooking

  /** canUserReviewBooking as written (here and in BookingService): the
      caller's booking, `completed` with payment `authorized`, and no review
      yet. */
  predicate CanUserReviewBooking(db: Database, reviews: map<Id, Review>, userId: Id, bookingId: Id): (r: bool)
    reads db`bookings
    ensures r ==> bookingId in db.bookings && db.bookings[bookingId].user == userId && !HasReview(reviews, bookingId)
    ensures r ==> !BS.PaymentConsistent(db.bookings)
  {
    && bookingId in db.bookings
    && db.bookings[bookingId].user == userId
    && db.bookings[bookingId].status == Completed
    && db.bookings[bookingId].paymentStatus == Authorized
    && !HasReview(reviews, bookingId)
  }

  /** Payment authorization always moves a booking to `paid`, so a
      `completed` booking is never `authorized`: as written the answer is
      always false, while createReview accepts paid bookings. */
  lemma CanUserReviewBookingNeverHolds(db: Database, reviews: map<Id, Review>, userId: Id, bookingId: Id)
    requires BS.PaymentConsistent(db.bookings)
    ensures !CanUserReviewBooking(db, reviews, userId, bookingId)
  {
    if bookingId in db.bookings {
      assert db.bookings[bookingId].paymentStatus == Authorized ==> db.bookings[bookingId].status == Paid;
    }
  }

  /** canUserReviewBooking as intended: the same question createReview asks
      of the booking, `paid` with payment `authorized`. */
  predicate CanUserReviewBookingIntended(db: Database, reviews: map<Id, Review>, userId: Id, bookingId: Id): (r: bool)
    reads db`bookings
    ensures r ==> bookingId in db.bookings && db.bookings[bookingId].user == userId && !HasReview(reviews, bookingId)
    ensures r ==> !CanUserReviewBooking(db, reviews, userId, bookingId)
    ensures (&& BS.PaymentConsistent(db.bookings) && bookingId in db.bookings
             && db.bookings[bookingId].user == userId && db.bookings[bookingId].status == Paid
             && !HasReview(reviews, bookingId)) ==> r
  {
    && bookingId in db.bookings
    && db.bookings[bookingId].user == userId
    && db.bookings[bookingId].status == Paid
    && db.bookings[bookingId].paymentStatus == Authorized
    && !HasReview(reviews, bookingId)
  }

  /** The intended answer is createReview's verdict, short of the washer
      lookup: every accepted review was reviewable, and a reviewable booking
      whose service has a washer is accepted. */
  lemma ReviewableIsAccepted(db: Database, reviews: map<Id, Review>, userId: Id, bookingId: Id)
    ensures CreateReviewAccepts(db, reviews, userId, bookingId) ==>
              CanUserReviewBookingIntended(db, reviews, userId, bookingId)
    ensures (&& CanUserReviewBookingIntended(db, reviews, userId, bookingId)
             && db.ServiceWasher(db.bookings[bookingId].service).WasherUser?) ==>
              CreateReviewAccepts(db, reviews, userId, bookingId)
  {
  }
}
