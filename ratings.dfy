/**
 * Course ratings: one vote per (course, user, category) with a value 1..5, 0 meaning
 * "no vote", and per-course quality and difficulty scores that average the nonzero votes.
 */
module Ratings {
  import opened Wrappers
  import opened Ids
  import opened Seqs

  const Quality: string := "quality"
  const Difficulty: string := "difficulty"

  datatype VoteRow = VoteRow(course: CourseId, user: UserId, category: string, value: int)

  /** A score kept as a rational: `total / count`, read as 0 when `count` is 0. */
  datatype Mean = Mean(total: int, count: nat)

  predicate SameKey(a: VoteRow, b: VoteRow)
  {
    a.course == b.course && a.user == b.user && a.category == b.category
  }

  predicate HasKey(r: VoteRow, course: CourseId, user: UserId, category: string)
  {
    r.course == course && r.user == user && r.category == category
  }

  /** The `unique_together = ("course", "user", "category")` constraint. */
  ghost predicate UniqueKeys(rows: seq<VoteRow>)
  {
    forall i, j :: 0 <= i < j < |rows| ==> !SameKey(rows[i], rows[j])
  }

  /** The value a row adds to the score total of `course` in `category` (0 for an unvote). */
  function Contribution(course: CourseId, category: string): VoteRow -> int
  {
    (r: VoteRow) => if r.course == course && r.category == category then r.value else 0
  }

  /** 1 for a nonzero vote on `course` in `category`, else 0. */
  function Counted(course: CourseId, category: string): VoteRow -> int
  {
    (r: VoteRow) => if r.course == course && r.category == category && r.value != 0 then 1 else 0
  }

  /**
   * `_calculate_average_score`: the mean of the course's nonzero votes in the category,
   * 0 when there are none.
   */
  function AverageScore(rows: seq<VoteRow>, course: CourseId, category: string): (m: Mean)
  {
    CountedNonNegative(rows, course, category);
    Mean(SumOf(rows, Contribution(course, category)), SumOf(rows, Counted(course, category)))
  }

  lemma {:induction false} CountedNonNegative(rows: seq<VoteRow>, course: CourseId, category: string)
    ensures SumOf(rows, Counted(course, category)) >= 0
    decreases |rows|
  {
    if |rows| > 0 {
      CountedNonNegative(rows[1..], course, category);
    }
  }

  /** With no nonzero vote the total is 0 too, so the score reads as 0. */
  lemma {:induction false} NoVotesNoTotal(rows: seq<VoteRow>, course: CourseId, category: string)
    requires SumOf(rows, Counted(course, category)) == 0
    ensures SumOf(rows, Contribution(course, category)) == 0
    decreases |rows|
  {
    if |rows| > 0 {
      CountedNonNegative(rows[1..], course, category);
      NoVotesNoTotal(rows[1..], course, category);
    }
  }

  /** The average is over the votes of that course and category only: other rows do not move it. */
  lemma AverageIgnoresOtherRows(rows: seq<VoteRow>, r: VoteRow, course: CourseId, category: string)
    requires r.course != course || r.category != category || r.value == 0
    ensures AverageScore(rows + [r], course, category) == AverageScore(rows, course, category)
  {
    SumOfAppend(rows, [r], Contribution(course, category));
    SumOfAppend(rows, [r], Counted(course, category));
  }

  /** A new nonzero vote adds its value to the total and one to the count. */
  lemma AverageAddsVote(rows: seq<VoteRow>, r: VoteRow)
    requires r.value != 0
    ensures AverageScore(rows + [r], r.course, r.category)
      == Mean(AverageScore(rows, r.course, r.category).total + r.value, AverageScore(rows, r.course, r.category).count + 1)
  {
    SumOfAppend(rows, [r], Contribution(r.course, r.category));
    SumOfAppend(rows, [r], Counted(r.course, r.category));
  }

  /** Changing an existing vote from `a` to `b` moves the total by `b - a` and the count by the change in nonzero-ness. */
  lemma AverageChangesVote(rows: seq<VoteRow>, i: int, v: int)
    requires 0 <= i < |rows|
    ensures var r := rows[i];
      var after := AverageScore(rows[i := r.(value := v)], r.course, r.category);
      var before := AverageScore(rows, r.course, r.category);
      after.total == before.total - r.value + v
      && after.count == before.count - (if r.value != 0 then 1 else 0) + (if v != 0 then 1 else 0)
  {
    var r := rows[i];
    SumOfUpdate(rows, i, r.(value := v), Contribution(r.course, r.category));
    SumOfUpdate(rows, i, r.(value := v), Counted(r.course, r.category));
  }

  /** The index of the vote with the given key, the first one if the table had several. */
  function FindVote(rows: seq<VoteRow>, course: CourseId, user: UserId, category: string): (i: Option<nat>)
    ensures i.Some? ==> i.value < |rows| && HasKey(rows[i.value], course, user, category)
    ensures i.Some? ==> forall k :: 0 <= k < i.value ==> !HasKey(rows[k], course, user, category)
    ensures i.None? ==> forall k :: 0 <= k < |rows| ==> !HasKey(rows[k], course, user, category)
    decreases |rows|
  {
    if |rows| == 0 then None
    else if HasKey(rows[0], course, user, category) then Some(0)
    else match FindVote(rows[1..], course, user, category)
      case None => None
      case Some(j) => Some(j + 1)
  }

  /** The vote of `user` on `course` in `category`, None when there is none. */
  function LookupVote(rows: seq<VoteRow>, course: CourseId, user: UserId, category: string): (v: Option<VoteRow>)
    ensures v.None? <==> forall k :: 0 <= k < |rows| ==> !HasKey(rows[k], course, user, category)
    ensures v.Some? ==> v.value in rows && HasKey(v.value, course, user, category)
  {
    match FindVote(rows, course, user, category)
    case None => None
    case Some(i) => Some(rows[i])
  }

  /** In a table with unique keys, the vote with a key is the only row with that key. */
  lemma LookupUnique(rows: seq<VoteRow>, k: int)
    requires UniqueKeys(rows) && 0 <= k < |rows|
    ensures LookupVote(rows, rows[k].course, rows[k].user, rows[k].category) == Some(rows[k])
  {
    var i := FindVote(rows, rows[k].course, rows[k].user, rows[k].category).value;
    assert SameKey(rows[i], rows[k]);
  }

  /** The table as `get_or_create` leaves it: a missing row is created with value 0. */
  function AfterGetOrCreate(rows: seq<VoteRow>, course: CourseId, user: UserId, category: string): seq<VoteRow>
  {
    if FindVote(rows, course, user, category).None? then rows + [VoteRow(course, user, category, 0)] else rows
  }

  /** A value `vote` accepts: 1..5 for a rating, 0 to withdraw. */
  predicate ValidValue(value: int)
  {
    value == 0 || 1 <= value <= 5
  }

  /**
   * The value stored and the `is_unvote` flag: resubmitting the current value of an
   * existing vote stores 0 and is an unvote; otherwise the submitted value is stored
   * and it is an unvote iff that value is 0.
   */
  function NewValue(existing: Option<int>, value: int): (r: (int, bool))
    ensures existing.Some? && existing.value == value ==> r == (0, true)
    ensures !(existing.Some? && existing.value == value) ==> r == (value, value == 0)
  {
    if existing.Some? && existing.value == value then (0, true) else (value, value == 0)
  }

  /** Submitting the same rating twice to a fresh key withdraws it. */
  lemma SameValueTwiceWithdraws(value: int)
    requires 1 <= value <= 5
    ensures NewValue(Some(NewValue(None, value).0), value) == (0, true)
  {
  }

  /** The current value of the vote with the given key, if any. */
  function ExistingValue(rows: seq<VoteRow>, course: CourseId, user: UserId, category: string): Option<int>
  {
    match LookupVote(rows, course, user, category)
    case None => None
    case Some(r) => Some(r.value)
  }

  /** The table after storing `stored` under the key: the existing row is updated, or a row is appended. */
  function ApplyVote(rows: seq<VoteRow>, course: CourseId, user: UserId, category: string, stored: int): seq<VoteRow>
  {
    match FindVote(rows, course, user, category)
    case Some(i) => rows[i := rows[i].(value := stored)]
    case None => rows + [VoteRow(course, user, category, stored)]
  }

  /**
   * Storing a vote keeps keys unique, leaves exactly one row with the key holding the
   * stored value, and leaves every row with another key as it was.
   */
  lemma ApplyVoteSpec(rows: seq<VoteRow>, course: CourseId, user: UserId, category: string, stored: int)
    requires UniqueKeys(rows)
    ensures var rows' := ApplyVote(rows, course, user, category, stored);
      UniqueKeys(rows')
      && LookupVote(rows', course, user, category) == Some(VoteRow(course, user, category, stored))
      && |rows| <= |rows'| <= |rows| + 1
      && (forall k :: 0 <= k < |rows| && !HasKey(rows[k], course, user, category) ==> rows'[k] == rows[k])
      && (forall k :: |rows| <= k < |rows'| ==> HasKey(rows'[k], course, user, category))
  {
    var rows' := ApplyVote(rows, course, user, category, stored);
    match FindVote(rows, course, user, category)
    case Some(i) =>
      assert forall a, b :: 0 <= a < b < |rows'| ==> SameKey(rows'[a], rows'[b]) == SameKey(rows[a], rows[b]);
      LookupUnique(rows', i);
    case None =>
      assert forall a, b :: 0 <= a < b < |rows| ==> rows'[a] == rows[a] && rows'[b] == rows[b];
      LookupUnique(rows', |rows|);
  }

  /** `Course.objects.get` fails for an unknown course. */
  datatype VoteError = CourseDoesNotExist

  /**
   * The table of votes together with the score fields of the course table
   * (`quality_score`, `difficulty_score`), keyed by course id.
   */
  class VoteTable {
    var rows: seq<VoteRow>
    var quality: map<CourseId, Mean>
    var difficulty: map<CourseId, Mean>

    ghost predicate Valid()
      reads this
    {
      UniqueKeys(rows) && quality.Keys == difficulty.Keys
    }

    /** A table for the given courses with no votes and zero scores. */
    constructor(courses: set<CourseId>)
      ensures Valid()
      ensures rows == [] && quality.Keys == courses && difficulty.Keys == courses
      ensures forall c :: c in courses ==> quality[c] == Mean(0, 0) && difficulty[c] == Mean(0, 0)
    {
      rows := [];
      quality := map c | c in courses :: Mean(0, 0);
      difficulty := map c | c in courses :: Mean(0, 0);
    }

    /**
     * `VoteManager.vote` as written: the score is recalculated before the vote row is
     * saved, so it is the average over the table as `get_or_create` left it, which is
     * the average before this vote.
     */
    method Vote(value: int, course: CourseId, category: string, user: UserId) returns (r: Result<(Option<Mean>, bool), VoteError>)
      requires Valid()
      modifies this
      ensures Valid()
      ensures !ValidValue(value) ==> r == Ok((None, false)) && unchanged(this)
      ensures ValidValue(value) && course !in old(quality) ==> r == Err(CourseDoesNotExist) && unchanged(this)
      ensures ValidValue(value) && course in old(quality) ==>
        var nv := NewValue(ExistingValue(old(rows), course, user, category), value);
        var stale := AverageScore(AfterGetOrCreate(old(rows), course, user, category), course, category);
        rows == ApplyVote(old(rows), course, user, category, nv.0)
        && r.Ok? && r.value.1 == nv.1
        && (category == Quality ==> r.value.0 == Some(stale) && quality == old(quality)[course := stale] && difficulty == old(difficulty))
        && (category == Difficulty ==> r.value.0 == Some(stale) && difficulty == old(difficulty)[course := stale] && quality == old(quality))
        && (category != Quality && category != Difficulty ==> r.value.0 == None && quality == old(quality) && difficulty == old(difficulty))
    {
      if value != 0 && (value < 1 || value > 5) {
        return Ok((None, false));
      }
      if course !in quality {
        return Err(CourseDoesNotExist);
      }
      var tableSeen := AfterGetOrCreate(rows, course, user, category);
      var nv := NewValue(ExistingValue(rows, course, user, category), value);
      var newScore: Option<Mean> := None;
      if category == Quality {
        newScore := Some(AverageScore(tableSeen, course, category));
        quality := quality[course := newScore.value];
      } else if category == Difficulty {
        newScore := Some(AverageScore(tableSeen, course, category));
        difficulty := difficulty[course := newScore.value];
      }
      ApplyVoteSpec(rows, course, user, category, nv.0);
      rows := ApplyVote(rows, course, user, category, nv.0);
      r := Ok((newScore, nv.1));
    }

    /**
     * `VoteManager.vote` with the score recalculated after the vote is saved: the
     * reported and stored score is the average over the updated table.
     */
    method VoteAfterSave(value: int, course: CourseId, category: string, user: UserId) returns (r: Result<(Option<Mean>, bool), VoteError>)
      requires Valid()
      modifies this
      ensures Valid()
      ensures !ValidValue(value) ==> r == Ok((None, false)) && unchanged(this)
      ensures ValidValue(value) && course !in old(quality) ==> r == Err(CourseDoesNotExist) && unchanged(this)
      ensures ValidValue(value) && course in old(quality) ==>
        var nv := NewValue(ExistingValue(old(rows), course, user, category), value);
        var score := AverageScore(rows, course, category);
        rows == ApplyVote(old(rows), course, user, category, nv.0)
        && r.Ok? && r.value.1 == nv.1
        && (category == Quality ==> r.value.0 == Some(score) && quality == old(quality)[course := score] && difficulty == old(difficulty))
        && (category == Difficulty ==> r.value.0 == Some(score) && difficulty == old(difficulty)[course := score] && quality == old(quality))
        && (category != Quality && category != Difficulty ==> r.value.0 == None && quality == old(quality) && difficulty == old(difficulty))
    {
      if value != 0 && (value < 1 || value > 5) {
        return Ok((None, false));
      }
      if course !in quality {
        return Err(CourseDoesNotExist);
      }
      var nv := NewValue(ExistingValue(rows, course, user, category), value);
      ApplyVoteSpec(rows, course, user, category, nv.0);
      rows := ApplyVote(rows, course, user, category, nv.0);
      var newScore: Option<Mean> := None;
      if category == Quality {
        newScore := Some(AverageScore(rows, course, category));
        quality := quality[course := newScore.value];
      } else if category == Difficulty {
        newScore := Some(AverageScore(rows, course, category));
        difficulty := difficulty[course := newScore.value];
      }
      r := Ok((newScore, nv.1));
    }

    /**
     * `for_course_and_user`: the user's difficulty and quality votes on the course,
     * each None when absent.
     */
    method ForCourseAndUser(course: CourseId, user: UserId) returns (difficultyVote: Option<VoteRow>, qualityVote: Option<VoteRow>)
      requires Valid()
      ensures difficultyVote == LookupVote(rows, course, user, Difficulty)
      ensures qualityVote == LookupVote(rows, course, user, Quality)
    {
      difficultyVote, qualityVote := None, None;
      var i := 0;
      while i < |rows|
        invariant 0 <= i <= |rows|
        invariant difficultyVote == LookupVote(rows[..i], course, user, Difficulty)
        invariant qualityVote == LookupVote(rows[..i], course, user, Quality)
      {
        LookupExtend(rows, i, course, user, Difficulty);
        LookupExtend(rows, i, course, user, Quality);
        if rows[i].course == course && rows[i].user == user {
          if rows[i].category == Difficulty {
            difficultyVote := Some(rows[i]);
          }
          if rows[i].category == Quality {
            qualityVote := Some(rows[i]);
          }
        }
        i := i + 1;
      }
      assert rows[..i] == rows;
    }
  }

  /** Extending a prefix of a table with unique keys by one row finds that row iff it has the key. */
  lemma LookupExtend(rows: seq<VoteRow>, i: int, course: CourseId, user: UserId, category: string)
    requires UniqueKeys(rows) && 0 <= i < |rows|
    ensures LookupVote(rows[..i + 1], course, user, category) ==
      if HasKey(rows[i], course, user, category) then Some(rows[i]) else LookupVote(rows[..i], course, user, category)
  {
    var p := rows[..i + 1];
    assert forall k :: 0 <= k < i ==> p[k] == rows[..i][k];
    if HasKey(rows[i], course, user, category) {
      assert forall k :: 0 <= k < i ==> !SameKey(rows[k], rows[i]);
    } else {
      match FindVote(rows[..i], course, user, category)
      case Some(j) =>
        assert FindVote(p, course, user, category) == Some(j);
      case None =>
        assert FindVote(p, course, user, category).None?;
    }
  }

  /** `num_quality_upvotes_for_user`: the user's quality votes with value at least 4. */
  function NumQualityUpvotesForUser(rows: seq<VoteRow>, user: UserId): nat
  {
    |Filter(rows, Upvote(user))|
  }

  /** A quality vote of 4 or more by `user`. */
  function Upvote(user: UserId): VoteRow -> bool
  {
    (r: VoteRow) => r.user == user && r.category == Quality && r.value >= 4
  }

  /**
   * The recalculation reads the table before the vote is saved: on an empty table,
   * a first quality vote of 5 reports and stores a score of 0, where the updated table
   * averages to 5.
   */
  lemma StaleScoreExample(course: CourseId, user: UserId)
    ensures AverageScore(AfterGetOrCreate([], course, user, Quality), course, Quality) == Mean(0, 0)
    ensures AverageScore(ApplyVote([], course, user, Quality, NewValue(None, 5).0), course, Quality) == Mean(5, 1)
  {
    var row0 := VoteRow(course, user, Quality, 0);
    var row5 := VoteRow(course, user, Quality, 5);
    assert AfterGetOrCreate([], course, user, Quality) == [row0];
    assert ApplyVote([], course, user, Quality, 5) == [row5];
    assert SumOf([row0], Contribution(course, Quality)) == 0;
    assert SumOf([row0], Counted(course, Quality)) == 0;
    assert SumOf([row5], Contribution(course, Quality)) == 5;
    assert SumOf([row5], Counted(course, Quality)) == 1;
  }

  /** The table `get_or_create` leaves averages exactly as the table before the vote. */
  lemma StaleScoreIsPriorScore(rows: seq<VoteRow>, course: CourseId, user: UserId, category: string)
    ensures AverageScore(AfterGetOrCreate(rows, course, user, category), course, category) == AverageScore(rows, course, category)
  {
    if FindVote(rows, course, user, category).None? {
      AverageIgnoresOtherRows(rows, VoteRow(course, user, category, 0), course, category);
    }
  }

  /**
   * After a vote is saved, the course's score in that category moves from the old
   * average by exactly the change of that one vote.
   */
  lemma ScoreAfterSave(rows: seq<VoteRow>, course: CourseId, user: UserId, category: string, stored: int)
    ensures var before := AverageScore(rows, course, category);
      var after := AverageScore(ApplyVote(rows, course, user, category, stored), course, category);
      var prior := ExistingValue(rows, course, user, category);
      var priorValue := if prior.Some? then prior.value else 0;
      after.total == before.total - priorValue + stored
      && after.count == before.count - (if priorValue != 0 then 1 else 0) + (if stored != 0 then 1 else 0)
  {
    match FindVote(rows, course, user, category)
    case Some(i) =>
      AverageChangesVote(rows, i, stored);
    case None =>
      SumOfAppend(rows, [VoteRow(course, user, category, stored)], Contribution(course, category));
      SumOfAppend(rows, [VoteRow(course, user, category, stored)], Counted(course, category));
  }
}
