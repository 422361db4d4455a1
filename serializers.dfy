/** Review field validators, the short description and the fields the course serializers return. */
module Serializers {
  import opened Wrappers
  import opened Ids
  import opened Strs
  import opened Values
  import opened Terms
  import opened Ratings

  datatype FieldError =
    | InvalidTerm
    | InvalidProfessor
    | CommentTooShort(minLength: nat)
    | TermRaised(error: TermError)

  /** `validate_term`: the upper-cased term when `is_valid_term` accepts it. */
  function ValidateTerm(value: string, current: string): (r: Result<string, FieldError>)
    ensures r.Ok? <==> IsValidTerm(Upper(value), current) == Ok(true)
    ensures r.Ok? ==> r.value == Upper(value)
    ensures r == Err(InvalidTerm) <==> IsValidTerm(Upper(value), current) == Ok(false)
  {
    match IsValidTerm(Upper(value), current)
    case Err(e) => Err(TermRaised(e))
    case Ok(valid) => if valid then Ok(Upper(value)) else Err(InvalidTerm)
  }

  /** An accepted term is accepted again unchanged. */
  lemma ValidateTermIdempotent(value: string, current: string)
    requires ValidateTerm(value, current).Ok?
    ensures ValidateTerm(ValidateTerm(value, current).value, current) == ValidateTerm(value, current)
  {
    UpperIdempotent(value);
  }

  /** `str.capitalize` on ASCII letters: the first character upper-cased, the rest lower-cased. */
  function Capitalize(s: string): (r: string)
    ensures |r| == |s|
  {
    if |s| == 0 then "" else [UpperChar(s[0])] + Lower(s[1..])
  }

  lemma CapitalizeIdempotent(s: string)
    ensures Capitalize(Capitalize(s)) == Capitalize(s)
  {
    if |s| > 0 {
      var c := Capitalize(s);
      assert c[1..] == Lower(s[1..]);
      assert Lower(Lower(s[1..])) == Lower(s[1..]);
    }
  }

  lemma CapitalizeKeepsSpaces(s: string)
    ensures ' ' in Capitalize(s) <==> ' ' in s
  {
    var c := Capitalize(s);
    if |s| > 0 {
      forall i | 0 <= i < |s|
        ensures c[i] == ' ' <==> s[i] == ' '
      {
        if i > 0 {
          assert c[i] == LowerChar(s[i]);
        }
      }
    }
  }

  function CapitalizeAll(parts: seq<string>): (r: seq<string>)
    ensures |r| == |parts|
    ensures forall k :: 0 <= k < |r| ==> r[k] == Capitalize(parts[k])
  {
    seq(|parts|, k requires 0 <= k < |parts| => Capitalize(parts[k]))
  }

  /** `validate_professor`: at least two space-separated parts, each capitalised, joined by single spaces. */
  function ValidateProfessor(value: string): (r: Result<string, FieldError>)
    ensures r.Err? <==> ' ' !in value
    ensures r.Err? ==> r.error == InvalidProfessor
  {
    var names := SplitOn(value, " ");
    SplitCount(value, ' ');
    CountZero(value, ' ');
    if |names| < 2 then Err(InvalidProfessor) else Ok(Join(CapitalizeAll(names), " "))
  }

  /** An accepted name splits back into the capitalised parts of the input, so the part count is kept. */
  lemma ValidateProfessorParts(value: string)
    requires ValidateProfessor(value).Ok?
    ensures SplitOn(ValidateProfessor(value).value, " ") == CapitalizeAll(SplitOn(value, " "))
  {
    var names := SplitOn(value, " ");
    var caps := CapitalizeAll(names);
    SplitCount(value, ' ');
    forall k | 0 <= k < |caps|
      ensures ' ' !in caps[k]
    {
      CapitalizeKeepsSpaces(names[k]);
    }
    SplitJoin(caps, ' ');
  }

  /** Validating an accepted name again gives it back. */
  lemma ValidateProfessorIdempotent(value: string)
    requires ValidateProfessor(value).Ok?
    ensures ValidateProfessor(ValidateProfessor(value).value) == ValidateProfessor(value)
  {
    var names := SplitOn(value, " ");
    var caps := CapitalizeAll(names);
    var out := ValidateProfessor(value).value;
    ValidateProfessorParts(value);
    SplitCount(value, ' ');
    SplitCount(out, ' ');
    CountZero(out, ' ');
    assert CapitalizeAll(caps) == caps by {
      forall k | 0 <= k < |caps|
        ensures CapitalizeAll(caps)[k] == caps[k]
      {
        CapitalizeIdempotent(names[k]);
      }
    }
  }

  /** `validate_comments`: the text unchanged unless it is shorter than the minimum length. */
  function ValidateComments(value: string, minLength: nat): (r: Result<string, FieldError>)
    ensures r.Ok? <==> |value| >= minLength
    ensures r.Ok? ==> r.value == value
  {
    if |value| < minLength then Err(CommentTooShort(minLength)) else Ok(value)
  }

  const ShortDescriptionLength: nat := 300

  /** `get_short_description`: None for an empty text, the text when it fits, else its first 300 characters and "...". */
  function GetShortDescription(description: string): (r: Option<string>)
    ensures r.None? <==> description == ""
    ensures r.Some? ==> |r.value| <= ShortDescriptionLength + 3
    ensures r.Some? && |description| <= ShortDescriptionLength ==> r.value == description
    ensures r.Some? && |description| > ShortDescriptionLength ==> |r.value| == ShortDescriptionLength + 3
    ensures r.Some? && |description| > ShortDescriptionLength ==>
      r.value[..ShortDescriptionLength] == description[..ShortDescriptionLength] && r.value[ShortDescriptionLength..] == "..."
  {
    if description == "" then None
    else if |description| <= ShortDescriptionLength then Some(description)
    else Some(description[..ShortDescriptionLength] + "...")
  }

  /** The fields the search serializer removes for anonymous requests. */
  const SearchScoreFields: set<string> := {"quality_score", "difficulty_score"}

  /** The fields the detail serializer removes for anonymous requests. */
  const DetailScoreFields: set<string> :=
    {"quality_score", "difficulty_score", "difficulty_vote", "quality_vote", "quality_vote_count", "difficulty_vote_count"}

  /** A serializer's output dictionary, which `to_representation` edits in place. */
  class Representation {
    var fields: map<string, Value>

    constructor(fields0: map<string, Value>)
      ensures fields == fields0
    {
      fields := fields0;
    }

    /** `ret.pop(key, None)`: the key is gone, whether or not it was there. */
    method Pop(key: string)
      modifies this
      ensures fields == old(fields) - {key}
    {
      fields := fields - {key};
    }

    method Set(key: string, value: Value)
      modifies this
      ensures fields == old(fields)[key := value]
    {
      fields := fields[key := value];
    }

    /**
     * `CourseSearchSerializer.to_representation`: anonymous requests lose the two score
     * fields; then the short description and offered-times string are added.
     */
    method SearchToRepresentation(authenticated: bool, shortDescription: Value, offeredTimes: Value)
      modifies this
      ensures fields == Hidden(old(fields), authenticated, SearchScoreFields)["short_description" := shortDescription]["offered_times_string" := offeredTimes]
    {
      if !authenticated {
        Pop("quality_score");
        Pop("difficulty_score");
      }
      Set("short_description", shortDescription);
      Set("offered_times_string", offeredTimes);
    }

    /** `CourseSerializer.to_representation`: anonymous requests lose the six score and vote fields. */
    method DetailToRepresentation(authenticated: bool)
      modifies this
      ensures fields == Hidden(old(fields), authenticated, DetailScoreFields)
    {
      if !authenticated {
        ghost var f0 := fields;
        Pop("quality_score");
        Pop("difficulty_score");
        Pop("difficulty_vote");
        Pop("quality_vote");
        Pop("quality_vote_count");
        Pop("difficulty_vote_count");
        DetailPops(f0);
      }
    }
  }

  /** Popping the six detail fields one after another removes exactly `DetailScoreFields`. */
  lemma DetailPops(m: map<string, Value>)
    ensures m - {"quality_score"} - {"difficulty_score"} - {"difficulty_vote"} - {"quality_vote"}
      - {"quality_vote_count"} - {"difficulty_vote_count"} == m - DetailScoreFields
  {
    MinusTwice(m, {"quality_score"}, "difficulty_score");
    MinusTwice(m, {"quality_score", "difficulty_score"}, "difficulty_vote");
    MinusTwice(m, {"quality_score", "difficulty_score", "difficulty_vote"}, "quality_vote");
    MinusTwice(m, {"quality_score", "difficulty_score", "difficulty_vote", "quality_vote"}, "quality_vote_count");
    MinusTwice(m, {"quality_score", "difficulty_score", "difficulty_vote", "quality_vote", "quality_vote_count"},
               "difficulty_vote_count");
  }

  /** Removing a set of keys and then one more removes their union. */
  lemma MinusTwice(m: map<string, Value>, s: set<string>, k: string)
    ensures (m - s) - {k} == m - (s + {k})
  {
  }

  /** The dictionary an anonymous request sees: the score fields removed. */
  function Hidden(fields: map<string, Value>, authenticated: bool, scores: set<string>): (r: map<string, Value>)
    ensures authenticated ==> r == fields
    ensures !authenticated ==> (forall k :: k in scores ==> k !in r)
    ensures forall k :: k !in scores ==> (k in r <==> k in fields) && (k in r ==> r[k] == fields[k])
  {
    if authenticated then fields else fields - scores
  }

  /** A vote field for the serializer: the value of an authenticated user's vote when it is positive. */
  function VoteField(rows: seq<VoteRow>, course: CourseId, user: Option<UserId>, category: string): (r: Option<int>)
    ensures r.Some? ==> (r.value > 0 && user.Some? && LookupVote(rows, course, user.value, category).Some?
      && LookupVote(rows, course, user.value, category).value.value == r.value)
    ensures r.None? <==> (user.None? || LookupVote(rows, course, user.value, category).None?
      || LookupVote(rows, course, user.value, category).value.value <= 0)
  {
    match user
    case None => None
    case Some(u) =>
      match LookupVote(rows, course, u, category)
      case None => None
      case Some(vote) => if vote.value > 0 then Some(vote.value) else None
  }

  /** `get_difficulty_vote`. */
  function DifficultyVote(rows: seq<VoteRow>, course: CourseId, user: Option<UserId>): Option<int>
  {
    VoteField(rows, course, user, Difficulty)
  }

  /** `get_quality_vote`. */
  function QualityVote(rows: seq<VoteRow>, course: CourseId, user: Option<UserId>): Option<int>
  {
    VoteField(rows, course, user, Quality)
  }

  /** A withdrawn vote (value 0) shows as no vote. */
  lemma WithdrawnVoteHidden(rows: seq<VoteRow>, course: CourseId, user: UserId, category: string)
    requires LookupVote(rows, course, user, category).Some? && LookupVote(rows, course, user, category).value.value == 0
    ensures VoteField(rows, course, Some(user), category).None?
  {
  }

  predicate Listed(counted: seq<(string, int)>, name: string)
  {
    exists k :: 0 <= k < |counted| && counted[k].0 == name
  }

  /** The instructor names of `names` that are not listed and not earlier in `names`, each once, in order. */
  function NewNames(names: seq<string>, counted: seq<(string, int)>, seen: set<string>): (r: seq<string>)
    ensures forall k :: 0 <= k < |r| ==> r[k] in names && !Listed(counted, r[k]) && r[k] !in seen
    decreases |names|
  {
    if |names| == 0 then []
    else if Listed(counted, names[0]) || names[0] in seen then NewNames(names[1..], counted, seen)
    else [names[0]] + NewNames(names[1..], counted, seen + {names[0]})
  }

  predicate Distinct(r: seq<string>)
  {
    forall a, b :: 0 <= a < b < |r| ==> r[a] != r[b]
  }

  /** No name is added twice. */
  lemma {:induction false} NewNamesDistinct(names: seq<string>, counted: seq<(string, int)>, seen: set<string>)
    ensures Distinct(NewNames(names, counted, seen))
    decreases |names|
  {
    if |names| > 0 {
      if Listed(counted, names[0]) || names[0] in seen {
        NewNamesDistinct(names[1..], counted, seen);
        assert NewNames(names, counted, seen) == NewNames(names[1..], counted, seen);
      } else {
        var rest := NewNames(names[1..], counted, seen + {names[0]});
        NewNamesDistinct(names[1..], counted, seen + {names[0]});
        var r := NewNames(names, counted, seen);
        assert r == [names[0]] + rest;
        assert Distinct(rest);
        forall a, b | 0 <= a < b < |r|
          ensures r[a] != r[b]
        {
          assert r[b] == rest[b - 1] && rest[b - 1] !in seen + {names[0]};
          if a > 0 {
            assert r[a] == rest[a - 1];
          }
        }
      }
    }
  }

  /** Every instructor name that is not listed and not in `seen` is added. */
  lemma {:induction false} NewNamesComplete(names: seq<string>, counted: seq<(string, int)>, seen: set<string>, name: string)
    requires name in names && !Listed(counted, name) && name !in seen
    ensures name in NewNames(names, counted, seen)
    decreases |names|
  {
    if names[0] != name {
      var seen' := if Listed(counted, names[0]) || names[0] in seen then seen else seen + {names[0]};
      NewNamesComplete(names[1..], counted, seen', name);
    }
  }

  /**
   * `get_professors_and_review_count`: the reviewed professors with their counts, as the
   * grouped and count-ordered query returns them, then each offering instructor that is
   * not among them, once, with count 0.
   */
  function ProfessorsAndReviewCount(counted: seq<(string, int)>, instructorNames: seq<string>): (r: seq<(string, int)>)
    ensures |r| >= |counted| && r[..|counted|] == counted
    ensures forall k :: |counted| <= k < |r| ==> r[k].1 == 0 && !Listed(counted, r[k].0) && r[k].0 in instructorNames
  {
    var extra := NewNames(instructorNames, counted, {});
    counted + seq(|extra|, k requires 0 <= k < |extra| => (extra[k], 0))
  }

  /** Every offering instructor appears in the list, and the added ones are distinct. */
  lemma ProfessorsAndReviewCountComplete(counted: seq<(string, int)>, instructorNames: seq<string>)
    ensures var r := ProfessorsAndReviewCount(counted, instructorNames);
      (forall name :: name in instructorNames ==> exists k :: 0 <= k < |r| && r[k].0 == name)
      && (forall a, b :: |counted| <= a < b < |r| ==> r[a].0 != r[b].0)
  {
    var r := ProfessorsAndReviewCount(counted, instructorNames);
    var extra := NewNames(instructorNames, counted, {});
    NewNamesDistinct(instructorNames, counted, {});
    forall name | name in instructorNames
      ensures exists k :: 0 <= k < |r| && r[k].0 == name
    {
      if Listed(counted, name) {
        var k :| 0 <= k < |counted| && counted[k].0 == name;
        assert r[k] == counted[k];
      } else {
        NewNamesComplete(instructorNames, counted, {}, name);
        var j :| 0 <= j < |extra| && extra[j] == name;
        assert r[|counted| + j].0 == name;
      }
    }
    forall a, b | |counted| <= a < b < |r|
      ensures r[a].0 != r[b].0
    {
      assert r[a].0 == extra[a - |counted|] && r[b].0 == extra[b - |counted|];
      assert Distinct(extra);
    }
  }
}
