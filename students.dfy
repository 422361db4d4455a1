/** Student accounts: the SJTU e-mail check and the recommendation threshold. */
module Students {
  import opened Ids
  import opened Strs
  import opened Seqs
  import opened Ratings

  const SjtuDomain: string := "sjtu.edu.cn"

  /** `is_valid_sjtu_student_email`: exactly two "@"-separated parts, the second the domain. */
  function IsValidSjtuStudentEmail(email: string): (ok: bool)
  {
    var parts := SplitOn(email, "@");
    |parts| == 2 && parts[1] == SjtuDomain
  }

  /** Any local part without "@" followed by "@sjtu.edu.cn" is accepted, the empty one included. */
  lemma EmailAccepted(local: string)
    requires '@' !in local
    ensures IsValidSjtuStudentEmail(local + "@" + SjtuDomain)
  {
    SplitFirst(local, '@', SjtuDomain);
    SplitNoSep(SjtuDomain, '@');
  }

  /** Every accepted address is a local part without "@" followed by "@sjtu.edu.cn". */
  lemma EmailAcceptedShape(email: string)
    requires IsValidSjtuStudentEmail(email)
    ensures var local := SplitOn(email, "@")[0];
      '@' !in local && email == local + "@" + SjtuDomain
  {
    SplitCount(email, '@');
    JoinSplit(email, "@");
  }

  /** An address with no "@" or with several is rejected. */
  lemma EmailRejectsAtCount(email: string)
    requires Count(email, '@') != 1
    ensures !IsValidSjtuStudentEmail(email)
  {
    SplitCount(email, '@');
  }

  /** The empty local part is accepted. */
  lemma EmptyLocalAccepted()
    ensures IsValidSjtuStudentEmail("@sjtu.edu.cn")
  {
    EmailAccepted("");
    assert "" + "@" + SjtuDomain == "@sjtu.edu.cn";
  }

  /** The domain comparison is case-sensitive. */
  lemma UpperCaseDomainRejected()
    ensures !IsValidSjtuStudentEmail("a@SJTU.EDU.CN")
  {
    var d := "SJTU.EDU.CN";
    assert d[0] != SjtuDomain[0];
    assert '@' !in d;
    OtherDomainRejected("a", d);
    assert "a" + "@" + d == "a@SJTU.EDU.CN";
  }

  /** An address whose single "@" is followed by anything but the domain is rejected. */
  lemma OtherDomainRejected(local: string, d: string)
    requires '@' !in local && '@' !in d && d != SjtuDomain
    ensures !IsValidSjtuStudentEmail(local + "@" + d)
  {
    SplitFirst(local, '@', d);
    SplitNoSep(d, '@');
  }

  /**
   * `can_see_recommendations`: the user has at least `recUpvoteReq` quality votes of 4 or
   * more (`REC_UPVOTE_REQ` is read from a constants module outside this model).
   */
  function CanSeeRecommendations(rows: seq<VoteRow>, user: UserId, recUpvoteReq: int): bool
  {
    NumQualityUpvotesForUser(rows, user) >= recUpvoteReq
  }

  /** Without any quality vote of 4 or more, recommendations are visible only when no upvote is required. */
  lemma NoUpvotesNoRecommendations(rows: seq<VoteRow>, user: UserId, recUpvoteReq: int)
    requires forall k :: 0 <= k < |rows| ==> !(rows[k].user == user && rows[k].category == Quality && rows[k].value >= 4)
    ensures CanSeeRecommendations(rows, user, recUpvoteReq) <==> recUpvoteReq <= 0
  {
    FilterEmpty(rows, Upvote(user));
  }

  /** Another quality upvote by the user raises the count by one; rows of other users change nothing. */
  lemma UpvoteCountStep(rows: seq<VoteRow>, r: VoteRow, user: UserId)
    ensures NumQualityUpvotesForUser(rows + [r], user) ==
      NumQualityUpvotesForUser(rows, user) + Indicator(r.user == user && r.category == Quality && r.value >= 4)
  {
    FilterAppend(rows, [r], Upvote(user));
  }
}
