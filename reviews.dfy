/** Course reviews and the kudos/dislike votes on them, as read by `ReviewManager`. */
module Reviews {
  import opened Wrappers
  import opened Ids
  import opened Seqs

  datatype Review = Review(id: ReviewId, course: CourseId, user: UserId, professor: string, term: string, createdAt: int)

  /** A kudos (`isKudos`) or a dislike by `user` on review `review`. */
  datatype ReviewVoteRow = ReviewVoteRow(review: ReviewId, user: UserId, isKudos: bool)

  function ByUserFor(user: UserId, course: CourseId): Review -> bool
  {
    (r: Review) => r.user == user && r.course == course
  }

  function ByUser(user: UserId): Review -> bool
  {
    (r: Review) => r.user == user
  }

  /** The reviews by `user` of `course`, in table order. */
  function ReviewsBy(reviews: seq<Review>, user: UserId, course: CourseId): seq<Review>
  {
    Filter(reviews, ByUserFor(user, course))
  }

  /** `user_can_write_review`: no review of the course by the user exists yet. */
  function UserCanWriteReview(reviews: seq<Review>, user: UserId, course: CourseId): (can: bool)
    ensures can <==> forall i :: 0 <= i < |reviews| ==> !(reviews[i].user == user && reviews[i].course == course)
  {
    FilterEmpty(reviews, ByUserFor(user, course));
    |ReviewsBy(reviews, user, course)| == 0
  }

  /** `num_reviews_for_user`: how many reviews the user wrote. */
  function NumReviewsForUser(reviews: seq<Review>, user: UserId): (n: nat)
    ensures n <= |reviews|
    ensures n == 0 <==> forall i :: 0 <= i < |reviews| ==> reviews[i].user != user
  {
    FilterEmpty(reviews, ByUser(user));
    |Filter(reviews, ByUser(user))|
  }

  /** The first of the reviews with the greatest `createdAt` (`order_by("-created_at").first()`). */
  function Latest(rs: seq<Review>): (r: Review)
    requires |rs| > 0
    ensures r in rs && forall k :: 0 <= k < |rs| ==> rs[k].createdAt <= r.createdAt
    decreases |rs|
  {
    if |rs| == 1 then rs[0]
    else var rest := Latest(rs[1..]); if rest.createdAt > rs[0].createdAt then rest else rs[0]
  }

  /**
   * `get_user_review_for_course`: None when the user has no review of the course, that
   * review when there is exactly one, and the latest by creation time when there are several.
   */
  function GetUserReviewForCourse(reviews: seq<Review>, user: UserId, course: CourseId): (r: Option<Review>)
    ensures r.None? <==> UserCanWriteReview(reviews, user, course)
    ensures r.Some? ==> r.value in reviews && r.value.user == user && r.value.course == course
    ensures r.Some? ==> forall k :: 0 <= k < |reviews| && reviews[k].user == user && reviews[k].course == course ==>
      reviews[k].createdAt <= r.value.createdAt
    ensures |ReviewsBy(reviews, user, course)| == 1 ==> r == Some(ReviewsBy(reviews, user, course)[0])
  {
    var mine := ReviewsBy(reviews, user, course);
    if |mine| == 0 then None
    else if |mine| == 1 then
      assert forall k :: 0 <= k < |reviews| && reviews[k].user == user && reviews[k].course == course ==> reviews[k] == mine[0] by {
        forall k | 0 <= k < |reviews| && reviews[k].user == user && reviews[k].course == course
          ensures reviews[k] == mine[0]
        {
          FilterKeeps(reviews, ByUserFor(user, course), reviews[k]);
        }
      }
      (Some(mine[0]))
    else
      var l := Latest(mine);
      assert forall k :: 0 <= k < |reviews| && reviews[k].user == user && reviews[k].course == course ==> reviews[k].createdAt <= l.createdAt by {
        forall k | 0 <= k < |reviews| && reviews[k].user == user && reviews[k].course == course
          ensures reviews[k].createdAt <= l.createdAt
        {
          FilterKeeps(reviews, ByUserFor(user, course), reviews[k]);
        }
      }
      Some(l)
  }

  predicate ReviewExists(reviews: seq<Review>, id: ReviewId)
  {
    exists i :: 0 <= i < |reviews| && reviews[i].id == id
  }

  /** The votes on one review with the given kind (kudos or dislike). */
  function VotesOfKind(votes: seq<ReviewVoteRow>, id: ReviewId, isKudos: bool): seq<ReviewVoteRow>
  {
    Filter(votes, (v: ReviewVoteRow) => v.review == id && v.isKudos == isKudos)
  }

  /** All votes on one review. */
  function VotesOn(votes: seq<ReviewVoteRow>, id: ReviewId): seq<ReviewVoteRow>
  {
    Filter(votes, (v: ReviewVoteRow) => v.review == id)
  }

  /** `get_kudos_count`: the review's votes with `is_kudos` true; None where `get` raises for an unknown review. */
  function GetKudosCount(reviews: seq<Review>, votes: seq<ReviewVoteRow>, id: ReviewId): (n: Option<nat>)
    ensures n.Some? <==> ReviewExists(reviews, id)
  {
    if ReviewExists(reviews, id) then Some(|VotesOfKind(votes, id, true)|) else None
  }

  /** `get_dislike_count`: the review's votes with `is_kudos` false; None for an unknown review. */
  function GetDislikeCount(reviews: seq<Review>, votes: seq<ReviewVoteRow>, id: ReviewId): (n: Option<nat>)
    ensures n.Some? <==> ReviewExists(reviews, id)
  {
    if ReviewExists(reviews, id) then Some(|VotesOfKind(votes, id, false)|) else None
  }

  /** `get_vote_counts`: the pair (kudos, dislikes). */
  function GetVoteCounts(reviews: seq<Review>, votes: seq<ReviewVoteRow>, id: ReviewId): (c: Option<(nat, nat)>)
    ensures c.Some? <==> ReviewExists(reviews, id)
    ensures c.Some? ==> c.value.0 == GetKudosCount(reviews, votes, id).value && c.value.1 == GetDislikeCount(reviews, votes, id).value
  {
    match (GetKudosCount(reviews, votes, id), GetDislikeCount(reviews, votes, id))
    case (Some(k), Some(d)) => Some((k, d))
    case _ => None
  }

  /** Kudos plus dislikes is the number of votes on the review. */
  lemma {:induction false} KudosPlusDislikes(votes: seq<ReviewVoteRow>, id: ReviewId)
    ensures |VotesOfKind(votes, id, true)| + |VotesOfKind(votes, id, false)| == |VotesOn(votes, id)|
    decreases |votes|
  {
    if |votes| > 0 {
      KudosPlusDislikes(votes[1..], id);
    }
  }
}
