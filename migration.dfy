/**
 * The one-off migration from +1/-1 votes to the 1..5 scale: 1 becomes 4, -1 becomes 2,
 * then every course's two scores are recomputed from the relabelled votes.
 */
module Migration {
  import opened Ids
  import opened Seqs
  import opened Ratings

  /** The value a vote ends up with after both bulk updates. */
  function Remap(v: int): (w: int)
  {
    if v == 1 then 4 else if v == -1 then 2 else v
  }

  /** The value map is idempotent: relabelled values are left alone. */
  lemma RemapIdempotent(v: int)
    ensures Remap(Remap(v)) == Remap(v)
    ensures Remap(v) != 1 && Remap(v) != -1
  {
  }

  /** One bulk `filter(value=from).update(value=to)`. */
  function Relabel(rows: seq<VoteRow>, from: int, to: int): (r: seq<VoteRow>)
    ensures |r| == |rows|
    ensures forall i :: 0 <= i < |rows| ==> r[i] == if rows[i].value == from then rows[i].(value := to) else rows[i]
  {
    seq(|rows|, i requires 0 <= i < |rows| => if rows[i].value == from then rows[i].(value := to) else rows[i])
  }

  /** Each vote relabelled on its own. */
  function Remapped(rows: seq<VoteRow>): (r: seq<VoteRow>)
    ensures |r| == |rows|
  {
    seq(|rows|, i requires 0 <= i < |rows| => rows[i].(value := Remap(rows[i].value)))
  }

  /** The two bulk updates do not interact: together they relabel each vote independently. */
  lemma BulkUpdatesAreRemap(rows: seq<VoteRow>)
    ensures Relabel(Relabel(rows, 1, 4), -1, 2) == Remapped(rows)
  {
  }

  /** Migrating an already migrated table changes no value. */
  lemma MigrationIdempotent(rows: seq<VoteRow>)
    ensures Remapped(Remapped(rows)) == Remapped(rows)
  {
    forall i | 0 <= i < |rows|
      ensures Remapped(Remapped(rows))[i] == Remapped(rows)[i]
    {
      RemapIdempotent(rows[i].value);
    }
  }

  /** Relabelling changes values only, so (course, user, category) keys stay unique. */
  lemma RemappedKeepsKeys(rows: seq<VoteRow>)
    requires UniqueKeys(rows)
    ensures UniqueKeys(Remapped(rows))
  {
    var r := Remapped(rows);
    assert forall i, j :: 0 <= i < j < |rows| ==> SameKey(r[i], r[j]) == SameKey(rows[i], rows[j]);
  }

  /** A quality upvote after the migration is an old vote of 1, or an old vote already 4 or more. */
  lemma {:induction false} UpvotesAfterMigration(rows: seq<VoteRow>, user: UserId)
    ensures NumQualityUpvotesForUser(Remapped(rows), user) ==
      |Filter(rows, (r: VoteRow) => r.user == user && r.category == Quality && (r.value == 1 || r.value >= 4))|
    decreases |rows|
  {
    if |rows| > 0 {
      assert Remapped(rows)[1..] == Remapped(rows[1..]);
      UpvotesAfterMigration(rows[1..], user);
    }
  }

  /** The loop behind one bulk update, over the vote table in place. */
  method BulkUpdate(t: VoteTable, from: int, to: int)
    modifies t
    ensures t.rows == Relabel(old(t.rows), from, to)
    ensures t.quality == old(t.quality) && t.difficulty == old(t.difficulty)
  {
    var i := 0;
    ghost var rows0 := t.rows;
    while i < |t.rows|
      invariant 0 <= i <= |t.rows| == |rows0|
      invariant t.quality == old(t.quality) && t.difficulty == old(t.difficulty)
      invariant forall k :: 0 <= k < i ==> t.rows[k] == Relabel(rows0, from, to)[k]
      invariant forall k :: i <= k < |t.rows| ==> t.rows[k] == rows0[k]
    {
      if t.rows[i].value == from {
        t.rows := t.rows[i := t.rows[i].(value := to)];
      }
      i := i + 1;
    }
  }

  /** The per-course recomputation in the migration: the mean of the nonzero votes. */
  method RecomputeScore(rows: seq<VoteRow>, course: CourseId, category: string) returns (m: Mean)
    ensures m == AverageScore(rows, course, category)
  {
    var total := 0;
    var count := 0;
    var i := 0;
    while i < |rows|
      invariant 0 <= i <= |rows|
      invariant total == SumOf(rows[..i], Contribution(course, category))
      invariant count == SumOf(rows[..i], Counted(course, category))
    {
      SumOfPrefix(rows, i, Contribution(course, category));
      SumOfPrefix(rows, i, Counted(course, category));
      var r := rows[i];
      if r.course == course && r.category == category && r.value != 0 {
        total := total + r.value;
        count := count + 1;
      }
      i := i + 1;
    }
    assert rows[..i] == rows;
    CountedNonNegative(rows, course, category);
    m := Mean(total, count);
  }

  /** A set of courses is empty or has a member (for picking the next course with `:|`). */
  lemma MemberOrEmpty(s: set<CourseId>)
    ensures s == {} || exists c :: c in s
  {
    if forall c :: c !in s {
      assert s == {};
    }
  }

  /**
   * `migrate_votes`: both bulk updates, then for every course both scores set from the
   * relabelled votes, which is what `_calculate_average_score` returns on them.
   */
  method MigrateVotes(t: VoteTable)
    requires t.Valid()
    modifies t
    ensures t.Valid()
    ensures t.rows == Remapped(old(t.rows))
    ensures t.quality.Keys == old(t.quality.Keys) && t.difficulty.Keys == old(t.difficulty.Keys)
    ensures forall c :: c in t.quality ==> t.quality[c] == AverageScore(t.rows, c, Quality)
    ensures forall c :: c in t.difficulty ==> t.difficulty[c] == AverageScore(t.rows, c, Difficulty)
  {
    BulkUpdate(t, 1, 4);
    BulkUpdate(t, -1, 2);
    BulkUpdatesAreRemap(old(t.rows));
    RemappedKeepsKeys(old(t.rows));
    var courses := t.quality.Keys;
    var todo := courses;
    while todo != {}
      invariant todo <= courses
      invariant t.rows == Remapped(old(t.rows))
      invariant t.quality.Keys == courses && t.difficulty.Keys == courses
      invariant forall c :: c in courses - todo ==> t.quality[c] == AverageScore(t.rows, c, Quality)
      invariant forall c :: c in courses - todo ==> t.difficulty[c] == AverageScore(t.rows, c, Difficulty)
      decreases todo
    {
      MemberOrEmpty(todo);
      var c :| c in todo;
      var q := RecomputeScore(t.rows, c, Quality);
      var d := RecomputeScore(t.rows, c, Difficulty);
      t.quality := t.quality[c := q];
      t.difficulty := t.difficulty[c := d];
      todo := todo - {c};
    }
  }
}
