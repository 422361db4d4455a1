/**
 * The legacy questionnaire login: a session record moves from absent to
 * `turnstile_verified` (with an 8-digit code) to `fully_verified` when a questionnaire
 * submission quotes that code, and a fully verified session can complete a login.
 */
module Verifier {
  import opened Wrappers
  import opened Strs
  import opened Values

  const VerificationQuestionId: string := "10424106"
  const StudentIdQuestionId: string := "10424105"
  const TurnstileVerified: string := "turnstile_verified"
  const FullyVerified: string := "fully_verified"

  /** A stored session value: decoded JSON, empty bytes (read as no session), or bytes that are not JSON. */
  datatype Stored = Json(v: Value) | Empty | Unparsable

  /** One questionnaire answer: the question's id and the answer given. */
  datatype Answer = Answer(questionId: Value, answer: Value)

  /** One submission of the answer sheet; `userName` is None when `user.name` is missing. */
  datatype Submission = Submission(answers: seq<Answer>, userName: Option<Value>)

  /** The webhook body: not JSON, or an answer sheet. */
  datatype WebhookBody = InvalidJson | Sheet(submissions: seq<Submission>)

  /**
   * The code and student id a submission gives: the stripped text of the last answer
   * to each of the two questions.
   */
  function ScanAnswers(answers: seq<Answer>): (r: (Option<string>, Option<string>))
    decreases |answers|
  {
    if |answers| == 0 then (None, None)
    else
      var (code, studentId) := ScanAnswers(answers[..|answers| - 1]);
      var a := answers[|answers| - 1];
      if PyStr(a.questionId) == VerificationQuestionId then (Some(PyStrip(PyStr(a.answer))), studentId)
      else if PyStr(a.questionId) == StudentIdQuestionId then (code, Some(PyStrip(PyStr(a.answer))))
      else (code, studentId)
  }

  /** A session record waiting for this code. */
  predicate Awaits(data: map<string, Value>, code: string)
  {
    Get(data, "status") == Str(TurnstileVerified) && PyStrip(PyStr(Get(data, "code"))) == PyStrip(code)
  }

  /** Reading a record that decodes to JSON other than an object raises. */
  datatype Raised = Raised

  /**
   * The first session, in key order, waiting for `code`; sessions whose value is missing
   * or not JSON are skipped, and a JSON value that is not an object raises.
   */
  function FindSession(store: map<string, Stored>, order: seq<string>, code: string): (r: Result<Option<string>, Raised>)
    decreases |order|
  {
    if |order| == 0 then Ok(None)
    else if order[0] !in store || !store[order[0]].Json? then FindSession(store, order[1..], code)
    else
      match store[order[0]].v
      case Dict(data) => if Awaits(data, code) then Ok(Some(order[0])) else FindSession(store, order[1..], code)
      case _ => Err(Raised)
  }

  /** The session found is the first key in order that waits for the code; none found means none waits. */
  lemma {:induction false} FindSessionSpec(store: map<string, Stored>, order: seq<string>, code: string)
    ensures FindSession(store, order, code).Ok? && FindSession(store, order, code).value.Some? ==>
      var k := FindSession(store, order, code).value.value;
      k in order && k in store && store[k].Json? && store[k].v.Dict? && Awaits(store[k].v.m, code)
    ensures FindSession(store, order, code) == Ok(None) ==>
      forall j :: 0 <= j < |order| && order[j] in store && store[order[j]].Json? && store[order[j]].v.Dict?
        ==> !Awaits(store[order[j]].v.m, code)
    decreases |order|
  {
    if |order| > 0 {
      FindSessionSpec(store, order[1..], code);
      if FindSession(store, order, code) == Ok(None) {
        forall j | 0 <= j < |order| && order[j] in store && store[order[j]].Json? && store[order[j]].v.Dict?
          ensures !Awaits(store[order[j]].v.m, code)
        {
          if j > 0 {
            assert order[j] == order[1..][j - 1];
          }
        }
      }
    }
  }

  /** The record of a fully verified session. */
  function VerifiedRecord(code: string, name: Value, studentId: string, now: int): Stored
  {
    Json(Dict(map["code" := Str(code), "status" := Str(FullyVerified), "name" := name, "student_id" := Str(studentId), "verified_at" := Int(now)]))
  }

  /**
   * One submission: a missing user name raises; without a non-empty code and student id
   * it is skipped; otherwise the first session waiting for the code becomes fully verified.
   */
  function SubmissionStep(store: map<string, Stored>, order: seq<string>, sub: Submission, now: int): (r: Result<(map<string, Stored>, Option<string>), Raised>)
  {
    if sub.userName.None? then Err(Raised)
    else
      var (code, studentId) := ScanAnswers(sub.answers);
      if code.None? || code.value == "" || studentId.None? || studentId.value == "" then Ok((store, None))
      else match FindSession(store, order, code.value)
        case Err(e) => Err(e)
        case Ok(None) => Ok((store, None))
        case Ok(Some(k)) => Ok((store[k := VerifiedRecord(code.value, sub.userName.value, studentId.value, now)], Some(k)))
  }

  /**
   * A submission changes at most one session, which waited for the submitted code and is
   * now fully verified with the submitted name and student id.
   */
  lemma SubmissionPromotesAtMostOne(store: map<string, Stored>, order: seq<string>, sub: Submission, now: int)
    requires SubmissionStep(store, order, sub, now).Ok?
    ensures var (after, matched) := SubmissionStep(store, order, sub, now).value;
      (matched.None? ==> after == store)
      && (matched.Some? ==>
        var (code, studentId) := ScanAnswers(sub.answers);
        var k := matched.value;
        k in store && store[k].Json? && store[k].v.Dict? && Awaits(store[k].v.m, code.value)
        && after == store[k := VerifiedRecord(code.value, sub.userName.value, studentId.value, now)])
  {
    var (code, studentId) := ScanAnswers(sub.answers);
    if code.Some? && code.value != "" && studentId.Some? && studentId.value != "" {
      FindSessionSpec(store, order, code.value);
    }
  }

  /** The webhook's progress: the store, the last session matched, and whether it raised. */
  datatype WebhookState = WebhookState(store: map<string, Stored>, matched: Option<string>, raised: bool)

  function Feed(st: WebhookState, order: seq<string>, sub: Submission, now: int): WebhookState
  {
    if st.raised then st
    else match SubmissionStep(st.store, order, sub, now)
      case Err(_) => st.(raised := true)
      case Ok((after, m)) => WebhookState(after, if m.Some? then m else st.matched, false)
  }

  /** The submissions processed in order; the writes made before an exception stay. */
  function FeedAll(st: WebhookState, order: seq<string>, subs: seq<Submission>, now: int): WebhookState
    decreases |subs|
  {
    if |subs| == 0 then st else Feed(FeedAll(st, order, subs[..|subs| - 1], now), order, subs[|subs| - 1], now)
  }

  /** Once a submission raised, the later ones change nothing. */
  lemma {:induction false} RaisedStays(st: WebhookState, order: seq<string>, subs: seq<Submission>, i: nat, now: int)
    requires i <= |subs| && FeedAll(st, order, subs[..i], now).raised
    ensures FeedAll(st, order, subs, now) == FeedAll(st, order, subs[..i], now)
    decreases |subs|
  {
    if i < |subs| {
      assert subs[..|subs| - 1][..i] == subs[..i];
      RaisedStays(st, order, subs[..|subs| - 1], i, now);
    } else {
      assert subs[..i] == subs;
    }
  }

  /** The webhook's status for the state it ends in. */
  function WebhookStatus(st: WebhookState): int
  {
    if st.raised then 500 else if st.matched.Some? && st.matched.value != "" then 200 else 404
  }

  /** The Redis keys `session:<id>`, keyed here by the session id. */
  class SessionStore {
    var sessions: map<string, Stored>

    constructor()
      ensures sessions == map[]
    {
      sessions := map[];
    }

    /** `verify_page` and `verify_config`: the session's old record is deleted. */
    method ResetSession(sessionId: string)
      modifies this
      ensures sessions == old(sessions) - {sessionId}
    {
      sessions := sessions - {sessionId};
    }

    /**
     * `verify_turnstile`: 400 without a token, 403 when the Turnstile check or the session
     * fails; otherwise the session waits for the freshly drawn 8-digit code.
     */
    method VerifyTurnstile(token: Option<string>, turnstileSuccess: bool, sessionId: string, code: string)
        returns (status: int)
      requires |code| == 8 && AllDigits(code)
      modifies this
      ensures (token.None? || token.value == "") ==> status == 400 && sessions == old(sessions)
      ensures token.Some? && token.value != "" && (!turnstileSuccess || sessionId == "") ==> status == 403 && sessions == old(sessions)
      ensures status == 200 <==> token.Some? && token.value != "" && turnstileSuccess && sessionId != ""
      ensures status == 200 ==> sessions == old(sessions)[sessionId := Json(Dict(map["code" := Str(code), "status" := Str(TurnstileVerified)]))]
    {
      if token.None? || token.value == "" {
        return 400;
      }
      if !turnstileSuccess || sessionId == "" {
        return 403;
      }
      sessions := sessions[sessionId := Json(Dict(map["code" := Str(code), "status" := Str(TurnstileVerified)]))];
      return 200;
    }

    /** The value of `str(answer["question"]["id"])` scan of one submission, as the loop does it. */
    method ScanSubmission(answers: seq<Answer>) returns (code: Option<string>, studentId: Option<string>)
      ensures (code, studentId) == ScanAnswers(answers)
    {
      code, studentId := None, None;
      var j := 0;
      while j < |answers|
        invariant 0 <= j <= |answers|
        invariant (code, studentId) == ScanAnswers(answers[..j])
      {
        assert answers[..j + 1][..j] == answers[..j];
        var q := PyStr(answers[j].questionId);
        if q == VerificationQuestionId {
          code := Some(PyStrip(PyStr(answers[j].answer)));
        } else if q == StudentIdQuestionId {
          studentId := Some(PyStrip(PyStr(answers[j].answer)));
        }
        j := j + 1;
      }
      assert answers[..j] == answers;
    }

    /** The key loop of the webhook: the first session waiting for the code. */
    method MatchSession(order: seq<string>, code: string) returns (r: Result<Option<string>, Raised>)
      ensures r == FindSession(sessions, order, code)
    {
      var j := 0;
      while j < |order|
        invariant 0 <= j <= |order|
        invariant FindSession(sessions, order, code) == FindSession(sessions, order[j..], code)
      {
        assert order[j..][1..] == order[j + 1..];
        var key := order[j];
        if key in sessions && sessions[key].Json? {
          match sessions[key].v
          case Dict(data) =>
            if Awaits(data, code) {
              return Ok(Some(key));
            }
          case _ =>
            return Err(Raised);
        }
        j := j + 1;
      }
      return Ok(None);
    }

    /**
     * `webhook`: 405 unless POST, 400 for a body that is not JSON; otherwise each
     * submission is matched in turn, and the answer is 200 iff some submission matched a
     * session, 500 when one raised (keeping the writes before it), else 404.
     */
    method Webhook(isPost: bool, body: WebhookBody, order: seq<string>, now: int) returns (status: int)
      modifies this
      ensures !isPost ==> status == 405 && sessions == old(sessions)
      ensures isPost && body.InvalidJson? ==> status == 400 && sessions == old(sessions)
      ensures isPost && body.Sheet? ==>
        var st := FeedAll(WebhookState(old(sessions), None, false), order, body.submissions, now);
        sessions == st.store && status == WebhookStatus(st)
    {
      if !isPost {
        return 405;
      }
      if body.InvalidJson? {
        return 400;
      }
      var subs := body.submissions;
      ghost var start := WebhookState(sessions, None, false);
      var matched: Option<string> := None;
      var i := 0;
      while i < |subs|
        invariant 0 <= i <= |subs|
        invariant FeedAll(start, order, subs[..i], now) == WebhookState(sessions, matched, false)
      {
        assert subs[..i + 1][..i] == subs[..i];
        var sub := subs[i];
        if sub.userName.None? {
          assert FeedAll(start, order, subs[..i + 1], now) == WebhookState(sessions, matched, true);
          RaisedStays(start, order, subs, i + 1, now);
          return 500;
        }
        var code, studentId := ScanSubmission(sub.answers);
        if code.Some? && code.value != "" && studentId.Some? && studentId.value != "" {
          var found := MatchSession(order, code.value);
          if found.Err? {
            assert FeedAll(start, order, subs[..i + 1], now) == WebhookState(sessions, matched, true);
            RaisedStays(start, order, subs, i + 1, now);
            return 500;
          }
          if found.value.Some? {
            var key := found.value.value;
            sessions := sessions[key := VerifiedRecord(code.value, sub.userName.value, studentId.value, now)];
            matched := Some(key);
          }
        }
        i := i + 1;
      }
      assert subs[..i] == subs;
      status := if matched.Some? && matched.value != "" then 200 else 404;
    }

    /**
     * `complete_login`: 405 unless POST, 400 without a session id, 404 for an unknown
     * or empty session, 500 for an unreadable record, 400 unless fully verified, 500 without a
     * student id and name; otherwise the student id (the username) and the name to log in.
     */
    function CompleteLogin(isPost: bool, sessionId: Option<string>): (r: Result<(Value, Value), int>)
      reads this
      ensures r.Ok? <==> (isPost && sessionId.Some? && sessionId.value != "" && sessionId.value in sessions
        && sessions[sessionId.value].Json? && sessions[sessionId.value].v.Dict?
        && Get(sessions[sessionId.value].v.m, "status") == Str(FullyVerified)
        && Truthy(Get(sessions[sessionId.value].v.m, "student_id")) && Truthy(Get(sessions[sessionId.value].v.m, "name")))
      ensures r.Ok? ==> r.value == (Get(sessions[sessionId.value].v.m, "student_id"), Get(sessions[sessionId.value].v.m, "name"))
      ensures !isPost ==> r == Err(405)
      ensures (isPost && sessionId.Some? && sessionId.value != ""
        && (sessionId.value !in sessions || sessions[sessionId.value].Empty?)) ==> r == Err(404)
    {
      if !isPost then Err(405)
      else if sessionId.None? || sessionId.value == "" then Err(400)
      else if sessionId.value !in sessions then Err(404)
      else match sessions[sessionId.value]
        case Empty => Err(404)
        case Unparsable => Err(500)
        case Json(v) =>
          if !v.Dict? then Err(500)
          else if Get(v.m, "status") != Str(FullyVerified) then Err(400)
          else if !Truthy(Get(v.m, "student_id")) || !Truthy(Get(v.m, "name")) then Err(500)
          else Ok((Get(v.m, "student_id"), Get(v.m, "name")))
    }
  }

  /** A session the webhook has just verified can complete its login with the submitted student id and name. */
  lemma VerifiedSessionCanLogIn(code: string, name: Value, studentId: string, now: int)
    requires studentId != "" && Truthy(name)
    ensures var rec := VerifiedRecord(code, name, studentId, now);
      rec.v.Dict? && Get(rec.v.m, "status") == Str(FullyVerified)
      && Get(rec.v.m, "student_id") == Str(studentId) && Get(rec.v.m, "name") == name
  {
  }

  /** A session only waiting for its code cannot complete a login. */
  lemma WaitingSessionCannotLogIn(code: string)
    ensures var rec := Json(Dict(map["code" := Str(code), "status" := Str(TurnstileVerified)]));
      Get(rec.v.m, "status") != Str(FullyVerified)
  {
  }
}
