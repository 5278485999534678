// server/controllers/reviewController.js: a participant of a project reviews
// another user, whose rating aggregate (count and running mean) is updated.
module ReviewController {
  import opened Common
  import opened Tables
  import opened Models
  import opened Invariants
  import opened Store

  /** getReviewsForUser: the reviews naming the user as reviewee, newest first. */
  function GetReviewsForUser(reviews: seq<Review>, user: Id): (r: seq<Row<Review>>)
    ensures Descending(r)
    ensures forall x :: x in r <==> x.id < |reviews| && reviews[x.id] == x.doc && x.doc.reviewee == user
  {
    NewestFirst(Where(reviews, (v: Review) => v.reviewee == user))
  }

  /** The aggregate after one more rating: one more review, and the mean
      `(avg * count + rating) / (count + 1)` (before the two-decimal rounding). */
  function Rate(avg: real, count: nat, rating: int): (r: (real, nat))
    ensures r.1 == count + 1
    ensures r.0 * (r.1 as real) == avg * (count as real) + rating as real
  {
    ((avg * (count as real) + rating as real) / ((count + 1) as real), count + 1)
  }

  function Sum(ratings: seq<int>): int
  {
    if |ratings| == 0 then 0 else Sum(ratings[..|ratings| - 1]) + ratings[|ratings| - 1]
  }

  /** The aggregate of a user who received `ratings` in this order, starting
      from the schema's defaults (0 and 0). */
  function Aggregate(ratings: seq<int>): (real, nat)
  {
    if |ratings| == 0 then (0.0, 0)
    else
      var prev := Aggregate(ratings[..|ratings| - 1]);
      Rate(prev.0, prev.1, ratings[|ratings| - 1])
  }

  /** The count is the number of ratings and mean * count is their sum, so the
      stored mean is the true mean of every rating received. */
  lemma {:induction false} AggregateTracksSum(ratings: seq<int>)
    ensures Aggregate(ratings).1 == |ratings|
    ensures Aggregate(ratings).0 * (|ratings| as real) == Sum(ratings) as real
  {
    if |ratings| > 0 {
      AggregateTracksSum(ratings[..|ratings| - 1]);
    }
  }

  /** createReview: missing project 404, reviewer not a participant 403,
      reviewing oneself 400. The review is then stored, whether or not the
      project is completed, the reviewee took part, or the reviewer already
      reviewed; an unknown reviewee then fails with 500 after the review was
      stored, and a known one gets one more review in the aggregate. */
  method CreateReview(db: Db, caller: Caller, pid: Id, reviewee: Id, rating: int, comment: Option<string>)
    returns (r: Result<Row<Review>>)
    requires db.UsersValid()
    modifies db`reviews, db`users
    ensures db.UsersValid()
    ensures pid >= |db.projects| ==> r == Err(NotFound)
    ensures pid < |db.projects| && !IsParticipant(db.projects[pid], caller.id) ==> r == Err(Forbidden)
    ensures (pid < |db.projects| && IsParticipant(db.projects[pid], caller.id) && caller.id == reviewee)
            ==> r == Err(BadRequest)
    ensures var stored := pid < |db.projects| && IsParticipant(db.projects[pid], caller.id) && caller.id != reviewee;
            && (stored ==> db.reviews == old(db.reviews) + [Review(pid, caller.id, reviewee, rating, comment)])
            && (!stored ==> db.reviews == old(db.reviews) && r.Err?)
            && (stored && reviewee >= |old(db.users)| ==> r == Err(ServerError))
            && (r.Err? ==> db.users == old(db.users))
            && (r.Ok? <==> stored && reviewee < |old(db.users)|)
    ensures r.Ok? ==> r.value == Row(|old(db.reviews)|, Review(pid, caller.id, reviewee, rating, comment))
    ensures r.Ok? ==> var u := old(db.users)[reviewee];
                      var agg := Rate(u.averageRating, u.totalReviews, rating);
                      db.users == old(db.users)[reviewee := u.(averageRating := agg.0, totalReviews := agg.1)]
  {
    if pid >= |db.projects| {
      return Err(NotFound);
    }
    if !IsParticipant(db.projects[pid], caller.id) {
      return Err(Forbidden);
    }
    if caller.id == reviewee {
      return Err(BadRequest);
    }
    var review := Review(pid, caller.id, reviewee, rating, comment);
    db.reviews := db.reviews + [review];
    if reviewee >= |db.users| {
      // reviewee.totalReviews on a null reviewee throws.
      return Err(ServerError);
    }
    var u := db.users[reviewee];
    var agg := Rate(u.averageRating, u.totalReviews, rating);
    db.users := db.users[reviewee := u.(averageRating := agg.0, totalReviews := agg.1)];
    r := Ok(Row(|db.reviews| - 1, review));
  }
}
