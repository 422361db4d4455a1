/**
 * Kudos and dislikes on reviews: at most one vote per (review, user); voting the
 * same way again withdraws the vote, voting the other way flips it.
 */
module ReviewVotes {
  import opened Wrappers
  import opened Ids
  import opened Seqs
  import opened Reviews

  predicate SameVoter(a: ReviewVoteRow, b: ReviewVoteRow)
  {
    a.review == b.review && a.user == b.user
  }

  /** The `unique_together = ("review", "user")` constraint. */
  ghost predicate UniqueVoters(votes: seq<ReviewVoteRow>)
  {
    forall i, j :: 0 <= i < j < |votes| ==> !SameVoter(votes[i], votes[j])
  }

  /** The index of the user's vote on the review, if any. */
  function FindReviewVote(votes: seq<ReviewVoteRow>, review: ReviewId, user: UserId): (i: Option<nat>)
    ensures i.Some? ==> i.value < |votes| && votes[i.value].review == review && votes[i.value].user == user
    ensures i.None? ==> forall k :: 0 <= k < |votes| ==> !(votes[k].review == review && votes[k].user == user)
    decreases |votes|
  {
    if |votes| == 0 then None
    else if votes[0].review == review && votes[0].user == user then Some(0)
    else match FindReviewVote(votes[1..], review, user)
      case None => None
      case Some(j) => Some(j + 1)
  }

  /** The user's current vote on the review: Some(is_kudos), or None. */
  function UserVote(votes: seq<ReviewVoteRow>, review: ReviewId, user: UserId): Option<bool>
  {
    match FindReviewVote(votes, review, user)
    case None => None
    case Some(i) => Some(votes[i].isKudos)
  }

  /**
   * One vote on an existing review: the new vote table and the reported `user_vote`.
   * A first vote is created, the same vote again is deleted, the opposite vote flips it.
   */
  function ToggleReviewVote(votes: seq<ReviewVoteRow>, review: ReviewId, user: UserId, isKudos: bool): (seq<ReviewVoteRow>, Option<bool>)
  {
    match FindReviewVote(votes, review, user)
    case None => (votes + [ReviewVoteRow(review, user, isKudos)], Some(isKudos))
    case Some(i) =>
      if votes[i].isKudos == isKudos then (RemoveAt(votes, i), None)
      else (votes[i := votes[i].(isKudos := isKudos)], Some(isKudos))
  }

  /** The only vote of a voter in a table with unique voters is the one `FindReviewVote` returns. */
  lemma FindUnique(votes: seq<ReviewVoteRow>, k: int)
    requires UniqueVoters(votes) && 0 <= k < |votes|
    ensures FindReviewVote(votes, votes[k].review, votes[k].user) == Some(k)
  {
    var i := FindReviewVote(votes, votes[k].review, votes[k].user).value;
    assert SameVoter(votes[i], votes[k]);
  }

  /**
   * A vote keeps voters unique, and afterwards the user's vote on the review is the
   * reported `user_vote`: a first vote or a flip records `is_kudos`, a repeat removes the vote.
   */
  lemma ToggleSpec(votes: seq<ReviewVoteRow>, review: ReviewId, user: UserId, isKudos: bool)
    requires UniqueVoters(votes)
    ensures var (votes', userVote) := ToggleReviewVote(votes, review, user, isKudos);
      UniqueVoters(votes') && UserVote(votes', review, user) == userVote
      && (UserVote(votes, review, user) == Some(isKudos) <==> userVote.None?)
  {
    var (votes', userVote) := ToggleReviewVote(votes, review, user, isKudos);
    match FindReviewVote(votes, review, user)
    case None =>
      assert forall a, b :: 0 <= a < b < |votes| ==> votes'[a] == votes[a] && votes'[b] == votes[b];
      FindUnique(votes', |votes|);
    case Some(i) =>
      if votes[i].isKudos == isKudos {
        assert forall a :: 0 <= a < |votes'| ==> votes'[a] == (if a < i then votes[a] else votes[a + 1]);
        assert UniqueVoters(votes') by {
          forall a, b | 0 <= a < b < |votes'|
            ensures !SameVoter(votes'[a], votes'[b])
          {
            var a0 := if a < i then a else a + 1;
            var b0 := if b < i then b else b + 1;
            assert votes'[a] == votes[a0] && votes'[b] == votes[b0] && a0 < b0;
          }
        }
        assert forall k :: 0 <= k < |votes'| ==> !(votes'[k].review == review && votes'[k].user == user) by {
          forall k | 0 <= k < |votes'|
            ensures !(votes'[k].review == review && votes'[k].user == user)
          {
            var k0 := if k < i then k else k + 1;
            assert votes'[k] == votes[k0] && k0 != i;
            if k0 < i { assert !SameVoter(votes[k0], votes[i]); } else { assert !SameVoter(votes[i], votes[k0]); }
          }
        }
      } else {
        assert forall a, b :: 0 <= a < b < |votes'| ==> SameVoter(votes'[a], votes'[b]) == SameVoter(votes[a], votes[b]);
        FindUnique(votes', i);
      }
  }

  /** Voting the same way twice from no vote leaves the table as it was. */
  lemma ToggleTwiceRestores(votes: seq<ReviewVoteRow>, review: ReviewId, user: UserId, isKudos: bool)
    requires FindReviewVote(votes, review, user).None?
    ensures ToggleReviewVote(ToggleReviewVote(votes, review, user, isKudos).0, review, user, isKudos) == (votes, None)
  {
    var votes1 := votes + [ReviewVoteRow(review, user, isKudos)];
    assert FindReviewVote(votes1, review, user) == Some(|votes|) by {
      FindAppended(votes, ReviewVoteRow(review, user, isKudos));
    }
    assert RemoveAt(votes1, |votes|) == votes;
  }

  lemma {:induction false} FindAppended(votes: seq<ReviewVoteRow>, v: ReviewVoteRow)
    requires FindReviewVote(votes, v.review, v.user).None?
    ensures FindReviewVote(votes + [v], v.review, v.user) == Some(|votes|)
    decreases |votes|
  {
    if |votes| > 0 {
      assert (votes + [v])[1..] == votes[1..] + [v];
      FindAppended(votes[1..], v);
    }
  }

  function KudosOn(id: ReviewId): ReviewVoteRow -> bool
  {
    (v: ReviewVoteRow) => v.review == id && v.isKudos == true
  }

  /**
   * How a vote moves the review's kudos count: a first kudos or a flip to kudos adds
   * one, withdrawing a kudos or flipping it away removes one, a dislike alone leaves it.
   */
  lemma ToggleKudosCount(votes: seq<ReviewVoteRow>, review: ReviewId, user: UserId, isKudos: bool)
    ensures var votes' := ToggleReviewVote(votes, review, user, isKudos).0;
      var before := |VotesOfKind(votes, review, true)|;
      var after := |VotesOfKind(votes', review, true)|;
      var prior := UserVote(votes, review, user);
      after == before - Indicator(prior == Some(true)) + Indicator(isKudos && prior != Some(isKudos))
  {
    var p := (v: ReviewVoteRow) => v.review == review && v.isKudos == true;
    assert VotesOfKind(votes, review, true) == Filter(votes, p);
    match FindReviewVote(votes, review, user)
    case None =>
      FilterAppend(votes, [ReviewVoteRow(review, user, isKudos)], p);
    case Some(i) =>
      if votes[i].isKudos == isKudos {
        FilterCountRemove(votes, i, p);
      } else {
        FilterCountUpdate(votes, i, votes[i].(isKudos := isKudos), p);
      }
  }

  datatype ReviewVoteError = WithVotesMissing

  /** The review table (read only here) and the vote table. */
  class ReviewVoteTable {
    var reviews: seq<Review>
    var votes: seq<ReviewVoteRow>

    ghost predicate Valid()
      reads this
    {
      UniqueVoters(votes)
    }

    constructor(reviews: seq<Review>)
      ensures Valid() && this.reviews == reviews && votes == []
    {
      this.reviews := reviews;
      votes := [];
    }

    /**
     * `ReviewVoteManager.vote` as written: after the update it calls
     * `Review.objects.with_votes`, which `ReviewManager` does not define; the
     * AttributeError rolls the atomic block back. An unknown review gives (None, None, None).
     */
    method VoteAsWritten(reviewId: ReviewId, user: UserId, isKudos: bool) returns (r: Result<Option<(nat, nat, Option<bool>)>, ReviewVoteError>)
      requires Valid()
      modifies this
      ensures Valid() && unchanged(this)
      ensures !ReviewExists(reviews, reviewId) ==> r == Ok(None)
      ensures ReviewExists(reviews, reviewId) ==> r == Err(WithVotesMissing)
    {
      if !ReviewExists(reviews, reviewId) {
        return Ok(None);
      }
      var saved := votes;
      ToggleSpec(votes, reviewId, user, isKudos);
      votes := ToggleReviewVote(votes, reviewId, user, isKudos).0;
      // the lookup of `with_votes` raises here and the transaction is rolled back
      votes := saved;
      r := Err(WithVotesMissing);
    }

    /**
     * `ReviewVoteManager.vote` with the counts read after the update: None for an
     * unknown review; otherwise the table is toggled and the reply is the review's
     * kudos and dislike counts in the updated table with the user's resulting vote.
     */
    method Vote(reviewId: ReviewId, user: UserId, isKudos: bool) returns (r: Option<(nat, nat, Option<bool>)>)
      requires Valid()
      modifies this
      ensures Valid() && reviews == old(reviews)
      ensures !ReviewExists(reviews, reviewId) ==> r == None && unchanged(this)
      ensures ReviewExists(reviews, reviewId) ==>
        var (votes', userVote) := ToggleReviewVote(old(votes), reviewId, user, isKudos);
        votes == votes' && userVote == UserVote(votes, reviewId, user)
        && r == Some((|VotesOfKind(votes, reviewId, true)|, |VotesOfKind(votes, reviewId, false)|, userVote))
    {
      if !ReviewExists(reviews, reviewId) {
        return None;
      }
      ToggleSpec(votes, reviewId, user, isKudos);
      var (votes', userVote) := ToggleReviewVote(votes, reviewId, user, isKudos);
      votes := votes';
      var counts := GetVoteCounts(reviews, votes, reviewId);
      r := Some((counts.value.0, counts.value.1, userVote));
    }

    /** `get_user_vote`: None for an anonymous user or without a vote, else `is_kudos`. */
    function GetUserVote(review: ReviewId, user: UserId, authenticated: bool): (v: Option<bool>)
      reads this
      ensures !authenticated ==> v.None?
      ensures authenticated ==> (v.Some? <==> exists k :: 0 <= k < |votes| && votes[k].review == review && votes[k].user == user)
      ensures v.Some? ==> exists k :: 0 <= k < |votes| && votes[k] == ReviewVoteRow(review, user, v.value)
    {
      if !authenticated then None else UserVote(votes, review, user)
    }
  }
}
