/**
 * Server-side helpers of the sign-in flow: the questionnaire settings per action, the
 * password strength rule, and the extraction of the latest questionnaire answer.
 */
module AuthUtils {
  import opened Wrappers
  import opened Strs
  import opened Values
  import Validation

  const Signup: string := "signup"
  const Login: string := "login"
  const ResetPassword: string := "reset_password"

  predicate IsAction(action: string)
  {
    action == Signup || action == Login || action == ResetPassword
  }

  /** The questionnaire settings read from the configuration, per action. */
  datatype SurveySettings = SurveySettings(
    signupUrl: Value, loginUrl: Value, resetUrl: Value,
    signupKey: Value, loginKey: Value, resetKey: Value,
    signupQuestionId: Value, loginQuestionId: Value, resetQuestionId: Value)

  /** The setting of the action's questionnaire, None for any other action. */
  function PerAction(action: string, signup: Value, login: Value, reset: Value): (v: Value)
    ensures !IsAction(action) ==> v == Null
    ensures action == Signup ==> v == signup
    ensures action == Login ==> v == login
    ensures action == ResetPassword ==> v == reset
  {
    if action == Signup then signup
    else if action == Login then login
    else if action == ResetPassword then reset
    else Null
  }

  /** `get_survey_url`. */
  function GetSurveyUrl(s: SurveySettings, action: string): Value
  {
    PerAction(action, s.signupUrl, s.loginUrl, s.resetUrl)
  }

  /** `get_survey_api_key`. */
  function GetSurveyApiKey(s: SurveySettings, action: string): Value
  {
    PerAction(action, s.signupKey, s.loginKey, s.resetKey)
  }

  /** `int(v)`, None where Python raises ValueError or TypeError. */
  function IntOf(v: Value): Option<int>
  {
    match v
    case Int(i) => Some(i)
    case Bool(b) => Some(if b then 1 else 0)
    case Str(s) => PyInt(s)
    case _ => None
  }

  /** `get_survey_questionid`: the configured id when set and an integer, else None. */
  function GetSurveyQuestionId(s: SurveySettings, action: string): (id: Option<int>)
  {
    var configured := PerAction(action, s.signupQuestionId, s.loginQuestionId, s.resetQuestionId);
    if Truthy(configured) then IntOf(configured) else None
  }

  /** The three lookups answer only for the three actions. */
  lemma SurveyLookupsOnlyForActions(s: SurveySettings, action: string)
    requires !IsAction(action)
    ensures GetSurveyUrl(s, action) == Null && GetSurveyApiKey(s, action) == Null
    ensures GetSurveyQuestionId(s, action) == None
  {
  }

  /** An unset id or one that is not an integer string gives None; `str(i)` gives i back. */
  lemma QuestionIdParsing(s: SurveySettings, action: string, i: int)
    requires IsAction(action)
    ensures var configured := PerAction(action, s.signupQuestionId, s.loginQuestionId, s.resetQuestionId);
      (configured == Null || configured == Str("") ==> GetSurveyQuestionId(s, action) == None)
      && (configured.Str? && PyInt(configured.s).None? ==> GetSurveyQuestionId(s, action) == None)
      && (configured == Str(IntToString(i)) ==> GetSurveyQuestionId(s, action) == Some(i))
  {
    var configured := PerAction(action, s.signupQuestionId, s.loginQuestionId, s.resetQuestionId);
    if configured == Str(IntToString(i)) {
      PyIntOfIntToString(i);
      assert |IntToString(i)| >= 1;
    }
  }

  /** `re.match(...)` with `.` stopping at "\n": a character of class `p` before the first newline. */
  predicate ClassBeforeNewline(s: string, p: char -> bool)
    decreases |s|
  {
    |s| > 0 && s[0] != '\n' && (p(s[0]) || ClassBeforeNewline(s[1..], p))
  }

  /** The index of the first "\n", or the length when there is none. */
  function FirstNewline(s: string): (k: nat)
    ensures k <= |s|
    ensures forall i :: 0 <= i < k ==> s[i] != '\n'
    ensures k < |s| ==> s[k] == '\n'
    decreases |s|
  {
    if |s| == 0 || s[0] == '\n' then 0 else 1 + FirstNewline(s[1..])
  }

  /**
   * `^(?=.*[a-z])(?=.*[A-Z])(?=.*\d).*$`: the first line holds a lower-case letter, an
   * upper-case letter and a digit, and `.*$` needs that line to end the text, or to be
   * followed by a final "\n" only.
   */
  predicate StrengthPattern(s: string)
  {
    ClassBeforeNewline(s, IsLower) && ClassBeforeNewline(s, IsUpper) && ClassBeforeNewline(s, IsDigit)
    && (FirstNewline(s) == |s| || FirstNewline(s) == |s| - 1)
  }

  lemma {:induction false} ClassSingleLine(s: string, p: char -> bool)
    requires '\n' !in s
    ensures ClassBeforeNewline(s, p) <==> exists i :: 0 <= i < |s| && p(s[i])
    decreases |s|
  {
    if |s| > 0 {
      ClassSingleLine(s[1..], p);
      if exists i :: 0 <= i < |s| && p(s[i]) {
        var i :| 0 <= i < |s| && p(s[i]);
        if i > 0 {
          assert p(s[1..][i - 1]);
        }
      }
      if exists i :: 0 <= i < |s| - 1 && p(s[1..][i]) {
        var i :| 0 <= i < |s| - 1 && p(s[1..][i]);
        assert p(s[i + 1]);
      }
    }
  }

  /** For a one-line password the pattern holds iff it has a lower-case letter, an upper-case letter and a digit. */
  lemma StrengthPatternSingleLine(s: string)
    requires '\n' !in s
    ensures StrengthPattern(s) <==> Validation.HasLower(s) && Validation.HasUpper(s) && Validation.HasDigit(s)
  {
    ClassSingleLine(s, IsLower);
    ClassSingleLine(s, IsUpper);
    ClassSingleLine(s, IsDigit);
  }

  datatype PasswordError =
    | TooShort(minLength: int)
    | MissingCharacterClasses
    | FrameworkRejected(messages: seq<string>)

  /**
   * `validate_password_strength`: the length check first, then the pattern, then the
   * framework's validators, given as `frameworkErrors` (no messages meaning accepted).
   */
  function ValidatePasswordStrength(password: string, minLength: int, frameworkErrors: string -> seq<string>): (r: (bool, Option<PasswordError>))
    ensures r.0 <==> r.1.None?
    ensures |password| < minLength ==> r == (false, Some(TooShort(minLength)))
    ensures |password| >= minLength && !StrengthPattern(password) ==> r == (false, Some(MissingCharacterClasses))
    ensures |password| >= minLength && StrengthPattern(password) ==> (r.0 <==> frameworkErrors(password) == [])
  {
    if |password| < minLength then (false, Some(TooShort(minLength)))
    else if !StrengthPattern(password) then (false, Some(MissingCharacterClasses))
    else if frameworkErrors(password) == [] then (true, None)
    else (false, Some(FrameworkRejected(frameworkErrors(password))))
  }

  /** The pattern needs a lower-case letter, an upper-case letter and a digit somewhere. */
  lemma {:induction false} ClassBeforeNewlineHas(s: string, p: char -> bool)
    requires ClassBeforeNewline(s, p)
    ensures exists i :: 0 <= i < |s| && p(s[i])
    decreases |s|
  {
    if !p(s[0]) {
      ClassBeforeNewlineHas(s[1..], p);
      var i :| 0 <= i < |s| - 1 && p(s[1..][i]);
      assert p(s[i + 1]);
    }
  }

  /** A password the server accepts, at least 10 characters long, shows at least "Good" on the meter. */
  lemma AcceptedPasswordIsGood(password: string, minLength: int, frameworkErrors: string -> seq<string>)
    requires ValidatePasswordStrength(password, minLength, frameworkErrors).0
    requires |password| >= 10
    ensures Validation.Strength(password) >= 3
  {
    ClassBeforeNewlineHas(password, IsLower);
    ClassBeforeNewlineHas(password, IsUpper);
    ClassBeforeNewlineHas(password, IsDigit);
  }

  /** How fetching the questionnaire answers ended. */
  datatype Reply = Fetched(body: Value) | TimedOut | RequestFailed | OtherFailure

  /** An error reply with its HTTP status, or an exception the helper does not catch. */
  datatype AnswerError = Status(code: int) | Uncaught

  /** The fields kept from the latest submission. */
  datatype Answer = Answer(id: Value, submittedAt: Value, account: Value, otp: Value)

  /** `ans.get("question", {}).get("id")` for one answer; Uncaught when a step is not a dict. */
  function QuestionIdOf(ans: Value): Result<Value, AnswerError>
  {
    if !ans.Dict? then Err(Uncaught)
    else
      var q := if "question" in ans.m then ans.m["question"] else Dict(map[]);
      if !q.Dict? then Err(Uncaught) else Ok(Get(q.m, "id"))
  }

  /** The `answer` of the first answer whose question id prints as `questionId`, or None. */
  function OtpOf(answers: seq<Value>, questionId: int): Result<Value, AnswerError>
    decreases |answers|
  {
    if |answers| == 0 then Ok(Null)
    else match QuestionIdOf(answers[0])
      case Err(e) => Err(e)
      case Ok(id) =>
        if PyStr(id) == IntToString(questionId) then Ok(Get(answers[0].m, "answer"))
        else OtpOf(answers[1..], questionId)
  }

  /** The id of an answer matches the configured question id. */
  predicate Matches(ans: Value, questionId: int)
  {
    QuestionIdOf(ans).Ok? && PyStr(QuestionIdOf(ans).value) == IntToString(questionId)
  }

  /**
   * When every answer is a dict with a dict question, the otp is the `answer` of the first
   * matching one, and None when none matches.
   */
  lemma {:induction false} OtpIsFirstMatch(answers: seq<Value>, questionId: int)
    requires forall k :: 0 <= k < |answers| ==> QuestionIdOf(answers[k]).Ok?
    ensures (forall k :: 0 <= k < |answers| ==> !Matches(answers[k], questionId)) ==> OtpOf(answers, questionId) == Ok(Null)
    ensures forall k ::
      (0 <= k < |answers| && Matches(answers[k], questionId) && (forall j :: 0 <= j < k ==> !Matches(answers[j], questionId))) ==>
      OtpOf(answers, questionId) == Ok(Get(answers[k].m, "answer"))
    decreases |answers|
  {
    if |answers| > 0 {
      OtpIsFirstMatch(answers[1..], questionId);
      if !Matches(answers[0], questionId) {
        forall k | 0 < k < |answers| && Matches(answers[k], questionId)
            && (forall j :: 0 <= j < k ==> !Matches(answers[j], questionId))
          ensures OtpOf(answers, questionId) == Ok(Get(answers[k].m, "answer"))
        {
          assert answers[1..][k - 1] == answers[k];
          assert forall j :: 0 <= j < k - 1 ==> answers[1..][j] == answers[j + 1];
        }
      }
    }
  }

  /** The loop over the answers, stopping at the first match. */
  method FindOtp(answers: seq<Value>, questionId: int) returns (r: Result<Value, AnswerError>)
    ensures r == OtpOf(answers, questionId)
  {
    var i := 0;
    while i < |answers|
      invariant 0 <= i <= |answers|
      invariant OtpOf(answers, questionId) == OtpOf(answers[i..], questionId)
    {
      assert answers[i..][1..] == answers[i + 1..];
      var id := QuestionIdOf(answers[i]);
      if id.Err? {
        return Err(id.error);
      }
      if PyStr(id.value) == IntToString(questionId) {
        return Ok(Get(answers[i].m, "answer"));
      }
      i := i + 1;
    }
    r := Ok(Null);
  }

  /** The `answers` of the latest row, None standing for OtpOf's "no match". */
  function AnswersOtp(latest: map<string, Value>, questionId: int): Result<Value, AnswerError>
  {
    var answers := if "answers" in latest then latest["answers"] else List([]);
    match answers
    case List(items) => OtpOf(items, questionId)
    case Str(s) => if s == "" then Ok(Null) else Err(Uncaught)
    case Dict(m) => if m == map[] then Ok(Null) else Err(Uncaught)
    case _ => Err(Uncaught)
  }

  /** The rows of a successful reply body, or the error the helper reports. */
  function LatestRow(body: Value): Result<map<string, Value>, AnswerError>
  {
    if !body.Dict? then Err(Uncaught)
    else if !Truthy(Get(body.m, "success")) || !Truthy(Get(body.m, "data")) then Err(Status(403))
    else
      var data := Get(body.m, "data");
      if !data.Dict? then Err(Uncaught)
      else
        var rows := Get(data.m, "rows");
        if !Truthy(rows) then Err(Status(403))
        else if !rows.List? || !rows.items[0].Dict? then Err(Uncaught)
        else Ok(rows.items[0].m)
  }

  /** The row's four fields, or the error of a missing one. */
  function Extract(latest: map<string, Value>, otp: Value): Result<Answer, AnswerError>
  {
    var user := Get(latest, "user");
    if Truthy(user) && !user.Dict? then Err(Uncaught)
    else
      var account := if Truthy(user) then Get(user.m, "account") else Null;
      var a := Answer(Get(latest, "id"), Get(latest, "submitted_at"), account, otp);
      if a.id == Null || a.submittedAt == Null || a.account == Null || a.otp == Null then Err(Status(400))
      else Ok(a)
  }

  /** `get_latest_answer` after the request: settings checks, the reply, the filtering. */
  function LatestAnswer(s: SurveySettings, action: string, reply: Reply): (r: Result<Answer, AnswerError>)
    ensures !Truthy(GetSurveyApiKey(s, action)) ==> r == Err(Status(400))
    ensures r.Ok? ==> r.value.id != Null && r.value.submittedAt != Null && r.value.account != Null && r.value.otp != Null
    ensures r.Ok? ==> (reply.Fetched? && LatestRow(reply.body).Ok?
      && r.value.id == Get(LatestRow(reply.body).value, "id")
      && r.value.submittedAt == Get(LatestRow(reply.body).value, "submitted_at"))
  {
    if !Truthy(GetSurveyApiKey(s, action)) then Err(Status(400))
    else
      var questionId := GetSurveyQuestionId(s, action);
      if questionId.None? || questionId.value == 0 then Err(Status(500))
      else match reply
        case TimedOut => Err(Status(504))
        case RequestFailed => Err(Status(500))
        case OtherFailure => Err(Status(500))
        case Fetched(body) =>
          match LatestRow(body)
          case Err(e) => Err(e)
          case Ok(latest) =>
            match AnswersOtp(latest, questionId.value)
            case Err(e) => Err(e)
            case Ok(otp) => Extract(latest, otp)
  }

  /** An unknown action is answered with 400 whatever the questionnaire would have replied. */
  lemma UnknownActionBeforeRequest(s: SurveySettings, action: string, reply: Reply)
    requires !IsAction(action)
    ensures LatestAnswer(s, action, reply) == Err(Status(400))
  {
  }

  /** A reply without rows, or with `success` false, is answered with 403. */
  lemma NoRowsForbidden(s: SurveySettings, action: string, body: map<string, Value>)
    requires Truthy(GetSurveyApiKey(s, action))
    requires GetSurveyQuestionId(s, action).Some? && GetSurveyQuestionId(s, action).value != 0
    requires !Truthy(Get(body, "success")) || (Get(body, "data").Dict? && Get(Get(body, "data").m, "rows") == List([]))
    ensures LatestAnswer(s, action, Fetched(Dict(body))) == Err(Status(403))
  {
  }

  /** `get_latest_answer`, with the answer loop run as a loop. */
  method GetLatestAnswer(s: SurveySettings, action: string, reply: Reply) returns (r: Result<Answer, AnswerError>)
    ensures r == LatestAnswer(s, action, reply)
  {
    if !Truthy(GetSurveyApiKey(s, action)) {
      return Err(Status(400));
    }
    var questionId := GetSurveyQuestionId(s, action);
    if questionId.None? || questionId.value == 0 {
      return Err(Status(500));
    }
    if !reply.Fetched? {
      return if reply.TimedOut? then Err(Status(504)) else Err(Status(500));
    }
    var row := LatestRow(reply.body);
    if row.Err? {
      return Err(row.error);
    }
    var latest := row.value;
    var otp: Result<Value, AnswerError>;
    var answers := if "answers" in latest then latest["answers"] else List([]);
    if answers.List? {
      otp := FindOtp(answers.items, questionId.value);
    } else {
      otp := AnswersOtp(latest, questionId.value);
    }
    if otp.Err? {
      return Err(otp.error);
    }
    r := Extract(latest, otp.value);
  }
}
