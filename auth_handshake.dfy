/**
 * The questionnaire sign-in handshake (`apps/auth/views.py`): `initiate` issues an OTP
 * and a temp token and records both in the key-value store; `verify` checks the
 * questionnaire submission against them and marks the token verified; signup and
 * password reset then spend a verified token.
 */
module AuthHandshake {
  import opened Wrappers
  import opened Strs
  import opened Values
  import AuthUtils

  // ---------------------------------------------------------------------------
  // The OTP: base64 text of six random bytes (section 4 of RFC 4648)
  // ---------------------------------------------------------------------------

  type byte = b: int | 0 <= b < 256

  /** The character of a 6-bit value in the base64 alphabet. */
  function B64Char(i: int): char
    requires 0 <= i < 64
  {
    if i < 26 then ('A' as int + i) as char
    else if i < 52 then ('a' as int + i - 26) as char
    else if i < 62 then ('0' as int + i - 52) as char
    else if i == 62 then '+' else '/'
  }

  /** The 6-bit value of a base64 character, -1 for any other character (the `=` pad included). */
  function B64Value(c: char): int
  {
    if 'A' <= c <= 'Z' then c as int - 'A' as int
    else if 'a' <= c <= 'z' then c as int - 'a' as int + 26
    else if '0' <= c <= '9' then c as int - '0' as int + 52
    else if c == '+' then 62
    else if c == '/' then 63
    else -1
  }

  lemma B64CharValue(i: int)
    requires 0 <= i < 64
    ensures B64Value(B64Char(i)) == i
  {
  }

  /** Three bytes as four characters. */
  function Group(x: byte, y: byte, z: byte): string
  {
    [B64Char(x / 4), B64Char((x % 4) * 16 + y / 16), B64Char((y % 16) * 4 + z / 64), B64Char(z % 64)]
  }

  /** A last group of one byte. */
  function PadTwo(x: byte): string
  {
    [B64Char(x / 4), B64Char((x % 4) * 16), '=', '=']
  }

  /** A last group of two bytes. */
  function PadOne(x: byte, y: byte): string
  {
    [B64Char(x / 4), B64Char((x % 4) * 16 + y / 16), B64Char((y % 16) * 4), '=']
  }

  /** `base64.b64encode`: four characters per three bytes, the last group padded with `=`. */
  function Base64Encode(b: seq<byte>): (s: string)
    ensures |s| % 4 == 0 && (|b| > 0 ==> |s| > 0)
    ensures |b| % 3 == 0 ==> 3 * |s| == 4 * |b|
    decreases |b|
  {
    if |b| == 0 then ""
    else if |b| == 1 then PadTwo(b[0])
    else if |b| == 2 then PadOne(b[0], b[1])
    else Group(b[0], b[1], b[2]) + Base64Encode(b[3..])
  }

  /** Decoding of unpadded base64 text, four characters at a time. */
  function Base64DecodeGroups(s: string): seq<int>
    requires |s| % 4 == 0
    decreases |s|
  {
    if |s| == 0 then []
    else Ungroup(s[0], s[1], s[2], s[3]) + Base64DecodeGroups(s[4..])
  }

  /** Four characters as the three bytes they carry. */
  function Ungroup(p: char, q: char, r: char, t: char): seq<int>
  {
    var a, b, c, d := B64Value(p), B64Value(q), B64Value(r), B64Value(t);
    [a * 4 + b / 16, (b % 16) * 16 + c / 4, (c % 4) * 64 + d]
  }

  lemma GroupDecodes(x: byte, y: byte, z: byte)
    ensures var g := Group(x, y, z); Ungroup(g[0], g[1], g[2], g[3]) == [x, y, z]
  {
    var b := (x % 4) * 16 + y / 16;
    var c := (y % 16) * 4 + z / 64;
    B64CharValue(x / 4);
    B64CharValue(b);
    B64CharValue(c);
    B64CharValue(z % 64);
    assert b / 16 == x % 4 && b % 16 == y / 16;
    assert c / 4 == y % 16 && c % 4 == z / 64;
  }

  /** Decoding works group by group. */
  lemma DecodeAppend(g: string, rest: string)
    requires |g| == 4 && |rest| % 4 == 0
    ensures Base64DecodeGroups(g + rest) == Ungroup(g[0], g[1], g[2], g[3]) + Base64DecodeGroups(rest)
  {
    var s := g + rest;
    assert s[4..] == rest;
    assert s[0] == g[0] && s[1] == g[1] && s[2] == g[2] && s[3] == g[3];
  }

  /** Decoding the first group, given that the rest decodes back. */
  lemma DecodeStep(b: seq<byte>)
    requires |b| >= 3 && |b| % 3 == 0
    requires Base64DecodeGroups(Base64Encode(b[3..])) == b[3..]
    ensures Base64DecodeGroups(Base64Encode(b)) == b
  {
    var rest := Base64Encode(b[3..]);
    var g := Group(b[0], b[1], b[2]);
    EncodeFront(b);
    GroupDecodes(b[0], b[1], b[2]);
    DecodeAppend(g, rest);
    FrontThree(b);
  }

  /** Encoding at least three bytes starts with the group of the first three. */
  lemma EncodeFront(b: seq<byte>)
    requires |b| >= 3
    ensures Base64Encode(b) == Group(b[0], b[1], b[2]) + Base64Encode(b[3..])
  {
  }

  /** A sequence of at least three items is its first three followed by the rest. */
  lemma FrontThree(b: seq<byte>)
    requires |b| >= 3
    ensures b == [b[0], b[1], b[2]] + b[3..]
  {
  }

  /** Whole groups decode back to their bytes. */
  lemma {:induction false} DecodeEncode(b: seq<byte>)
    requires |b| % 3 == 0
    ensures Base64DecodeGroups(Base64Encode(b)) == b
    decreases |b|
  {
    if |b| > 0 {
      DecodeEncode(b[3..]);
      DecodeStep(b);
    }
  }

  /** `base64.b64encode(otp_bytes).decode("ascii")[:8]`. */
  function OtpOf(otpBytes: seq<byte>): string
    requires |otpBytes| == 6
  {
    Base64Encode(otpBytes)[..8]
  }

  /**
   * The OTP of six bytes is exactly eight base64 characters with no padding, so the
   * `[:8]` cut removes nothing; and different bytes give different OTPs.
   */
  lemma OtpShape(otpBytes: seq<byte>, other: seq<byte>)
    requires |otpBytes| == 6 && |other| == 6
    ensures |OtpOf(otpBytes)| == 8 && OtpOf(otpBytes) == Base64Encode(otpBytes)
    ensures forall k :: 0 <= k < 8 ==> B64Value(OtpOf(otpBytes)[k]) >= 0
    ensures OtpOf(otpBytes) == OtpOf(other) ==> otpBytes == other
  {
    var s := Base64Encode(otpBytes);
    assert s == Group(otpBytes[0], otpBytes[1], otpBytes[2]) + Group(otpBytes[3], otpBytes[4], otpBytes[5]) by {
      SixBytes(otpBytes);
    }
    GroupChars(otpBytes[0], otpBytes[1], otpBytes[2]);
    GroupChars(otpBytes[3], otpBytes[4], otpBytes[5]);
    DecodeEncode(otpBytes);
    DecodeEncode(other);
  }

  /** Six bytes are two groups. */
  lemma SixBytes(b: seq<byte>)
    requires |b| == 6
    ensures Base64Encode(b) == Group(b[0], b[1], b[2]) + Group(b[3], b[4], b[5])
  {
    var tail := b[3..];
    assert tail[0] == b[3] && tail[1] == b[4] && tail[2] == b[5];
    assert tail[3..] == [];
    assert Base64Encode(tail) == Group(b[3], b[4], b[5]) + Base64Encode(tail[3..]);
  }

  /** A group has no padding. */
  lemma GroupChars(x: byte, y: byte, z: byte)
    ensures forall k :: 0 <= k < 4 ==> B64Value(Group(x, y, z)[k]) >= 0
  {
    B64CharValue(x / 4);
    B64CharValue((x % 4) * 16 + y / 16);
    B64CharValue((y % 16) * 4 + z / 64);
    B64CharValue(z % 64);
  }

  // ---------------------------------------------------------------------------
  // The store
  // ---------------------------------------------------------------------------

  /**
   * A stored value: a JSON object, a counter written by `incr`, or text that is not
   * JSON. Time-to-live is not modelled.
   */
  datatype Entry = Record(fields: map<string, Value>) | Count(n: int) | Unreadable

  type Store = map<string, Entry>

  function OtpKey(otp: string): string { "otp:" + otp }
  function StateKey(tokenHash: string): string { "temp_token_state:" + tokenHash }
  function AttemptsKey(tokenHash: string): string { "verify_attempts:" + tokenHash }

  lemma PrefixInjective(p: string, x: string, y: string)
    requires p + x == p + y
    ensures x == y
  {
    assert x == (p + x)[|p|..];
  }

  /** Keys of the three kinds never collide, and each kind determines its suffix. */
  lemma KeysDistinct(x: string, y: string)
    ensures OtpKey(x) != StateKey(y) && OtpKey(x) != AttemptsKey(y) && StateKey(x) != AttemptsKey(y)
    ensures OtpKey(x) == OtpKey(y) ==> x == y
    ensures StateKey(x) == StateKey(y) ==> x == y
    ensures AttemptsKey(x) == AttemptsKey(y) ==> x == y
  {
    assert OtpKey(x)[0] == 'o' && StateKey(y)[0] == 't' && AttemptsKey(y)[0] == 'v';
    assert StateKey(x)[0] == 't';
    if OtpKey(x) == OtpKey(y) { PrefixInjective("otp:", x, y); }
    if StateKey(x) == StateKey(y) { PrefixInjective("temp_token_state:", x, y); }
    if AttemptsKey(x) == AttemptsKey(y) { PrefixInjective("verify_attempts:", x, y); }
  }

  /** Every OTP key in the store holds an eight-character OTP, as `initiate` writes them. */
  ghost predicate OtpKeysWellFormed(store: Store)
  {
    forall otp :: OtpKey(otp) in store ==> |otp| == 8
  }

  /** The site's users: their e-mail, password (None for an empty password field) and `is_active`. */
  datatype User = User(email: string, password: Option<string>, active: bool)

  type Users = map<string, User>

  datatype CookieChange = KeepCookie | SetCookie(token: string) | DeleteCookie

  /** An HTTP response: status, JSON body and what happens to the `temp_token` cookie. */
  datatype Response = Response(status: int, body: map<string, Value>, cookie: CookieChange)

  function Fail(status: int, message: string): Response
  {
    Response(status, map["error" := Str(message)], KeepCookie)
  }

  /** The server error page of an exception the view does not catch. */
  const Uncaught := Response(500, map[], KeepCookie)

  /** The settings the endpoints read (all passed in). */
  datatype Settings = Settings(
    otpTimeOut: int, tempTokenTimeout: int, actionList: seq<string>, tokenRateLimit: int,
    survey: AuthUtils.SurveySettings, passwordLengthMin: int, emailDomain: string)

  /** A store and user table after a request, and the response sent. */
  datatype Outcome = Outcome(store: Store, users: Users, resp: Response)

  // ---------------------------------------------------------------------------
  // auth_initiate_api
  // ---------------------------------------------------------------------------

  /** The answer of the bot check. */
  datatype Turnstile = TurnstilePassed | TurnstileRejected | TurnstileError

  function OtpRecord(tempToken: string, now: int): Entry
  {
    Record(map["temp_token" := Str(tempToken), "initiated_at" := Int(now)])
  }

  function PendingRecord(action: Value): Entry
  {
    Record(map["status" := Str("pending"), "action" := action])
  }

  /** The clean-up of the state record of a temp token already in the cookie; text that is not JSON stays. */
  function Cleanup(store: Store, cookie: Option<string>, hash: string -> string): Store
  {
    if cookie.Some? && cookie.value != "" && StateKey(hash(cookie.value)) in store
       && !store[StateKey(hash(cookie.value))].Unreadable?
    then store - {StateKey(hash(cookie.value))}
    else store
  }

  /** The request is refused before anything is written. */
  predicate InitiateRefused(data: map<string, Value>, cfg: Settings)
  {
    var action := Get(data, "action");
    !Truthy(action) || !Truthy(Get(data, "turnstile_token")) || !(action.Str? && action.s in cfg.actionList)
  }

  /** What `initiate` writes once the checks pass: the clean-up, the OTP record and the new token's pending state. */
  function InitiateWrite(store: Store, cookie: Option<string>, otp: string, tempToken: string, now: int,
                         action: Value, hash: string -> string): Store
  {
    Cleanup(store, cookie, hash)[OtpKey(otp) := OtpRecord(tempToken, now)][StateKey(hash(tempToken)) := PendingRecord(action)]
  }

  /**
   * `auth_initiate_api` with the bot-check answer, the six random bytes, the new temp
   * token and the time passed in.
   */
  function InitiateResult(store: Store, data: map<string, Value>, cookie: Option<string>, turnstile: Turnstile,
                          otpBytes: seq<byte>, tempToken: string, now: int, cfg: Settings, hash: string -> string): (Store, Response)
    requires |otpBytes| == 6
  {
    InitiateWith(store, data, cookie, turnstile, OtpOf(otpBytes), tempToken, now, cfg, hash)
  }

  /** `auth_initiate_api` once the OTP text has been drawn. */
  function InitiateWith(store: Store, data: map<string, Value>, cookie: Option<string>, turnstile: Turnstile,
                        otp: string, tempToken: string, now: int, cfg: Settings, hash: string -> string): (Store, Response)
  {
    var action := Get(data, "action");
    if !Truthy(action) || !Truthy(Get(data, "turnstile_token")) then (store, Fail(400, "Missing action or turnstile_token"))
    else if !(action.Str? && action.s in cfg.actionList) then (store, Fail(400, "Invalid action"))
    else if turnstile == TurnstileRejected then (store, Fail(403, "Turnstile verification failed"))
    else if turnstile == TurnstileError then (store, Fail(500, "Turnstile verification error"))
    else
      var written := InitiateWrite(store, cookie, otp, tempToken, now, action, hash);
      var url := AuthUtils.GetSurveyUrl(cfg.survey, action.s);
      if !Truthy(url) then (written, Fail(500, "Something went wrong when fetching the survey URL"))
      else (written, Response(200, map["otp" := Str(otp), "redirect_url" := url], SetCookie(tempToken)))
  }

  /**
   * A missing action or bot-check token, or an action outside the list, is a 400 that
   * writes nothing; a refused or failed bot check writes nothing either; otherwise the
   * store is written, even when the survey URL then turns out to be unset, and a 200
   * carries the OTP and sets the temp-token cookie.
   */
  lemma InitiateOutcome(store: Store, data: map<string, Value>, cookie: Option<string>, turnstile: Turnstile,
                        otp: string, tempToken: string, now: int, cfg: Settings, hash: string -> string)
    ensures var (store', resp) := InitiateWith(store, data, cookie, turnstile, otp, tempToken, now, cfg, hash);
      (InitiateRefused(data, cfg) <==> resp.status == 400)
      && (InitiateRefused(data, cfg) || turnstile != TurnstilePassed ==> store' == store)
      && (!InitiateRefused(data, cfg) && turnstile == TurnstilePassed ==>
            store' == InitiateWrite(store, cookie, otp, tempToken, now, Get(data, "action"), hash))
      && (resp.status == 200 <==>
            (!InitiateRefused(data, cfg) && turnstile == TurnstilePassed
             && Truthy(AuthUtils.GetSurveyUrl(cfg.survey, Get(data, "action").s))))
      && (resp.status == 200 ==> resp.body["otp"] == Str(otp) && resp.cookie == SetCookie(tempToken))
  {
    if !InitiateRefused(data, cfg) && turnstile == TurnstilePassed {
      var action := Get(data, "action");
      var url := AuthUtils.GetSurveyUrl(cfg.survey, action.s);
      var written := InitiateWrite(store, cookie, otp, tempToken, now, action, hash);
      assert InitiateWith(store, data, cookie, turnstile, otp, tempToken, now, cfg, hash).0 == written;
      if Truthy(url) {
        assert InitiateWith(store, data, cookie, turnstile, otp, tempToken, now, cfg, hash).1
          == Response(200, map["otp" := Str(otp), "redirect_url" := url], SetCookie(tempToken));
      }
    }
  }

  /**
   * The write stores `otp:<otp>` with the token and the time and the token's pending
   * state, drops the state record of the token already in the cookie (unless that text
   * is not JSON), and leaves every other key alone: that older token's OTP record stays.
   */
  lemma InitiateStores(store: Store, cookie: Option<string>, otp: string, tempToken: string, now: int,
                       action: Value, hash: string -> string)
    ensures var store' := InitiateWrite(store, cookie, otp, tempToken, now, action, hash);
      var newKey := StateKey(hash(tempToken));
      store'[OtpKey(otp)] == OtpRecord(tempToken, now)
      && store'[newKey] == PendingRecord(action)
      && (cookie.Some? && cookie.value != "" && StateKey(hash(cookie.value)) != newKey
          && (StateKey(hash(cookie.value)) in store ==> !store[StateKey(hash(cookie.value))].Unreadable?)
          ==> StateKey(hash(cookie.value)) !in store')
      && (forall k :: (k in store && k != OtpKey(otp) && k != newKey
          && !(cookie.Some? && k == StateKey(hash(cookie.value)))) ==> k in store' && store'[k] == store[k])
      && store'.Keys <= store.Keys + {OtpKey(otp), newKey}
  {
    KeysDistinct(otp, hash(tempToken));
    if cookie.Some? {
      KeysDistinct(otp, hash(cookie.value));
    }
  }

  /** `initiate` writes only well-formed OTP keys. */
  lemma InitiateKeepsOtpKeys(store: Store, cookie: Option<string>, otpBytes: seq<byte>, tempToken: string, now: int,
                             action: Value, hash: string -> string)
    requires |otpBytes| == 6 && OtpKeysWellFormed(store)
    ensures OtpKeysWellFormed(InitiateWrite(store, cookie, OtpOf(otpBytes), tempToken, now, action, hash))
  {
    var otp := OtpOf(otpBytes);
    OtpShape(otpBytes, otpBytes);
    InitiateStores(store, cookie, otp, tempToken, now, action, hash);
    AddOtpKeepsOtpKeys(store, InitiateWrite(store, cookie, otp, tempToken, now, action, hash), otp, hash(tempToken));
  }

  /** Adding an eight-character OTP key and a token's state key keeps the OTP keys well formed. */
  lemma AddOtpKeepsOtpKeys(store: Store, store': Store, otp: string, h: string)
    requires OtpKeysWellFormed(store) && |otp| == 8 && store'.Keys <= store.Keys + {OtpKey(otp), StateKey(h)}
    ensures OtpKeysWellFormed(store')
  {
    forall x | OtpKey(x) in store'
      ensures |x| == 8
    {
      KeysDistinct(x, h);
      KeysDistinct(x, otp);
    }
  }

  // ---------------------------------------------------------------------------
  // verify_callback_api
  // ---------------------------------------------------------------------------

  /** The view stops with a response, or an exception escapes it. */
  datatype Halt = Reply(resp: Response) | Raised

  /** The temp token from the cookie and its state record. */
  datatype Checked = Checked(token: string, fields: map<string, Value>)

  /** Where a state record lookup ends. */
  function ReadState(store: Store, key: string): Result<map<string, Value>, Halt>
  {
    if key !in store then Err(Reply(Fail(401, "Temp token state not found or expired")))
    else match store[key]
      case Unreadable => Err(Reply(Fail(401, "Invalid temp token state data")))
      case Count(_) => Err(Raised)
      case Record(fields) => Ok(fields)
  }

  /** The request fields, the cookie, and a pending state record for the same action. */
  function VerifyPrecheck(store: Store, data: map<string, Value>, cookie: Option<string>, hash: string -> string): (r: Result<Checked, Halt>)
    ensures r.Ok? <==>
      Truthy(Get(data, "account")) && Truthy(Get(data, "answer_id")) && Truthy(Get(data, "action"))
      && cookie.Some? && cookie.value != "" && StateKey(hash(cookie.value)) in store
      && store[StateKey(hash(cookie.value))].Record?
      && Get(store[StateKey(hash(cookie.value))].fields, "status") == Str("pending")
      && Get(store[StateKey(hash(cookie.value))].fields, "action") == Get(data, "action")
    ensures r.Ok? ==> r.value == Checked(cookie.value, store[StateKey(hash(cookie.value))].fields)
    ensures r.Err? && r.error.Reply? ==> r.error.resp.status in {400, 401, 403}
  {
    if !Truthy(Get(data, "account")) || !Truthy(Get(data, "answer_id")) || !Truthy(Get(data, "action"))
    then Err(Reply(Fail(400, "Missing account, answer_id, or action")))
    else if cookie.None? || cookie.value == "" then Err(Reply(Fail(401, "No temp_token found")))
    else match ReadState(store, StateKey(hash(cookie.value)))
      case Err(h) => Err(h)
      case Ok(fields) =>
        if Get(fields, "status") != Str("pending") then Err(Reply(Fail(401, "Invalid temp token state")))
        else if Get(fields, "action") != Get(data, "action") then Err(Reply(Fail(403, "Action mismatch")))
        else Ok(Checked(cookie.value, fields))
  }

  /** `incr`: a missing counter starts at 1; a value that is not a counter raises. */
  function Incr(store: Store, key: string): (r: Result<(Store, int), Halt>)
    ensures r.Ok? <==> key !in store || store[key].Count?
    ensures r.Ok? ==> r.value.1 == (if key in store then store[key].n + 1 else 1) && r.value.0 == store[key := Count(r.value.1)]
  {
    if key !in store then Ok((store[key := Count(1)], 1))
    else match store[key]
      case Count(n) => Ok((store[key := Count(n + 1)], n + 1))
      case _ => Err(Raised)
  }

  /** A number Python can compare with a float; None where the comparison raises TypeError. */
  function NumberOf(v: Value): Option<int>
  {
    match v
    case Int(i) => Some(i)
    case Bool(b) => Some(if b then 1 else 0)
    case _ => None
  }

  /**
   * The checks on the OTP record taken out of the store: present, a JSON object with a
   * token and an initiation time, the token equal to the cookie's, and the submission
   * time (parsed by `parseTime`) within `timeout` after the initiation.
   */
  function OtpCheck(raw: Option<Entry>, token: string, submittedAt: Value, parseTime: Value -> Option<int>, timeout: int): (r: Result<(), Response>)
    ensures r.Ok? <==>
      raw.Some? && raw.value.Record? && token != "" && Get(raw.value.fields, "temp_token") == Str(token)
      && Truthy(Get(raw.value.fields, "initiated_at"))
      && parseTime(submittedAt).Some? && NumberOf(Get(raw.value.fields, "initiated_at")).Some?
      && NumberOf(Get(raw.value.fields, "initiated_at")).value <= parseTime(submittedAt).value
         <= NumberOf(Get(raw.value.fields, "initiated_at")).value + timeout
    ensures r.Err? ==> r.error.status == 401
  {
    match raw
    case None => Err(Fail(401, "Invalid or expired OTP"))
    case Some(Unreadable) => Err(Fail(401, "Invalid OTP data format"))
    case Some(Count(_)) => Err(Fail(401, "Invalid OTP data format"))
    case Some(Record(f)) =>
      var expected := Get(f, "temp_token");
      var initiated := Get(f, "initiated_at");
      if !Truthy(expected) || !Truthy(initiated) then Err(Fail(401, "Incomplete OTP data"))
      else if expected != Str(token) then Err(Fail(401, "Invalid temp_token"))
      else match (parseTime(submittedAt), NumberOf(initiated))
        case (Some(s), Some(i)) =>
          if s < i || s - i > timeout then Err(Fail(401, "Submission timestamp outside validity window")) else Ok(())
        case _ => Err(Fail(401, "Invalid submission timestamp"))
  }

  /** The response for a failed questionnaire query. */
  function AnswerFailure(e: AuthUtils.AnswerError): Response
  {
    match e
    case Status(code) => Response(code, map[], KeepCookie)
    case Uncaught => Uncaught
  }

  /**
   * `create_user_session`: the user named `account`, created with the site's e-mail
   * domain when missing; `sessionOk` false stands for the exception it turns into a 500.
   */
  function CreateUserSession(users: Users, account: Value, domain: string, sessionOk: bool): Result<(Users, string), Response>
  {
    if !sessionOk then Err(Fail(500, "Failed to create user session"))
    else
      var name := PyStr(account);
      if name in users then Ok((users, name))
      else Ok((users[name := User(name + "@" + domain, None, true)], name))
  }

  function VerifiedRecord(fields: map<string, Value>, account: Value): Entry
  {
    Record(fields["status" := Str("verified")]["account" := account])
  }

  /**
   * The successful end of `verify_callback_api`: the state becomes verified with the
   * account, the attempt counter goes, and a login also signs the user in and drops
   * the state record.
   */
  function VerifyFinish(store: Store, users: Users, ch: Checked, data: map<string, Value>, sessionOk: bool,
                        now: int, cfg: Settings, hash: string -> string): Outcome
  {
    var stateKey := StateKey(hash(ch.token));
    var action := Get(data, "action");
    var account := Get(data, "account");
    var verified := store[stateKey := VerifiedRecord(ch.fields, account)] - {AttemptsKey(hash(ch.token))};
    var expiresAt := Int(now + cfg.tempTokenTimeout);
    if action == Str(AuthUtils.Login) then
      match CreateUserSession(users, account, cfg.emailDomain, sessionOk)
      case Err(resp) => Outcome(verified, users, resp)
      case Ok((users', name)) =>
        if !users'[name].active then Outcome(verified, users', Fail(403, "User account is inactive"))
        else Outcome(verified - {stateKey}, users',
          Response(200, map["action" := action, "expires_at" := expiresAt, "is_logged_in" := Bool(true)], DeleteCookie))
    else Outcome(verified, users, Response(200, map["action" := action, "expires_at" := expiresAt, "is_logged_in" := Bool(false)], KeepCookie))
  }

  /** The answer field the view reads the OTP from, and the field `get_latest_answer` puts it under. */
  const CodeFieldAsWritten := "verification_code"
  const CodeField := "otp"

  /** The dictionary `get_latest_answer` returns: exactly id, submitted_at, account and otp. */
  function AnswerDict(a: AuthUtils.Answer): map<string, Value>
  {
    map["id" := a.id, "submitted_at" := a.submittedAt, "account" := a.account, "otp" := a.otp]
  }

  /** The error statuses `get_latest_answer` reports. */
  predicate AnswerCodes(answer: Result<AuthUtils.Answer, AuthUtils.AnswerError>)
  {
    answer.Err? && answer.error.Status? ==> answer.error.code in {400, 403, 500, 504}
  }

  /** `get_latest_answer` never reports a failure with a success status. */
  lemma LatestAnswerCodes(survey: AuthUtils.SurveySettings, action: string, reply: AuthUtils.Reply)
    ensures AnswerCodes(AuthUtils.LatestAnswer(survey, action, reply))
  {
    if reply.Fetched? && AuthUtils.LatestRow(reply.body).Ok? {
      var q := AuthUtils.GetSurveyQuestionId(survey, action);
      if q.Some? {
        AnswersRaiseOnly(AuthUtils.LatestRow(reply.body).value, q.value);
      }
    }
  }

  /** Reading the answers of a row fails only by an exception. */
  lemma AnswersRaiseOnly(latest: map<string, Value>, questionId: int)
    ensures AuthUtils.AnswersOtp(latest, questionId).Err? ==> AuthUtils.AnswersOtp(latest, questionId).error == AuthUtils.Uncaught
  {
    var answers := if "answers" in latest then latest["answers"] else List([]);
    if answers.List? {
      SearchRaisesOnly(answers.items, questionId);
    }
  }

  /** The question-id search fails only by an exception. */
  lemma {:induction false} SearchRaisesOnly(answers: seq<Value>, questionId: int)
    ensures AuthUtils.OtpOf(answers, questionId).Err? ==> AuthUtils.OtpOf(answers, questionId).error == AuthUtils.Uncaught
    decreases |answers|
  {
    if |answers| > 0 {
      SearchRaisesOnly(answers[1..], questionId);
    }
  }

  /** The OTP key looked up for an answer, reading the code from field `codeField`. */
  function SubmittedOtpKey(latest: map<string, Value>, codeField: string): string
  {
    OtpKey(PyStr(Get(latest, codeField)))
  }

  /**
   * `verify_callback_api` with the questionnaire's latest answer (or the failure of the
   * query, from `get_latest_answer`), the timestamp parser, the session outcome and the time
   * passed in; the submitted code is read from field `codeField`.
   */
  function VerifyWith(codeField: string, store: Store, users: Users, data: map<string, Value>, cookie: Option<string>,
                      answer: Result<AuthUtils.Answer, AuthUtils.AnswerError>, parseTime: Value -> Option<int>,
                      sessionOk: bool, now: int, cfg: Settings, hash: string -> string): Outcome
  {
    match VerifyPrecheck(store, data, cookie, hash)
    case Err(Reply(resp)) => Outcome(store, users, resp)
    case Err(Raised) => Outcome(store, users, Uncaught)
    case Ok(ch) =>
      match Incr(store, AttemptsKey(hash(ch.token)))
      case Err(_) => Outcome(store, users, Uncaught)
      case Ok((counted, attempts)) =>
        VerifyCounted(codeField, counted, attempts, users, ch, data, answer, parseTime, sessionOk, now, cfg, hash)
  }

  /** From the rate limit on, once the attempt is counted. */
  function VerifyCounted(codeField: string, counted: Store, attempts: int, users: Users, ch: Checked, data: map<string, Value>,
                         answer: Result<AuthUtils.Answer, AuthUtils.AnswerError>, parseTime: Value -> Option<int>,
                         sessionOk: bool, now: int, cfg: Settings, hash: string -> string): Outcome
  {
    if attempts > cfg.tokenRateLimit then Outcome(counted, users, Fail(429, "Too many verification attempts"))
    else match answer
      case Err(e) => Outcome(counted, users, AnswerFailure(e))
      case Ok(a) =>
        var latest := AnswerDict(a);
        if PyStr(Get(latest, "id")) != PyStr(Get(data, "answer_id")) then Outcome(counted, users, Fail(403, "Answer ID mismatch"))
        else VerifyOtp(SubmittedOtpKey(latest, codeField), counted, users, ch, data, Get(latest, "submitted_at"),
                       parseTime, sessionOk, now, cfg, hash)
  }

  /** From the get-and-delete of the OTP record on. */
  function VerifyOtp(otpKey: string, counted: Store, users: Users, ch: Checked, data: map<string, Value>, submittedAt: Value,
                     parseTime: Value -> Option<int>, sessionOk: bool, now: int, cfg: Settings, hash: string -> string): Outcome
  {
    var taken := counted - {otpKey};
    match OtpCheck(if otpKey in counted then Some(counted[otpKey]) else None, ch.token, submittedAt, parseTime, cfg.otpTimeOut)
    case Err(resp) => Outcome(taken, users, resp)
    case Ok(_) => VerifyFinish(taken, users, ch, data, sessionOk, now, cfg, hash)
  }

  /** The view as written: the code is read from `verification_code`. */
  function VerifyResult(store: Store, users: Users, data: map<string, Value>, cookie: Option<string>,
                        answer: Result<AuthUtils.Answer, AuthUtils.AnswerError>, parseTime: Value -> Option<int>,
                        sessionOk: bool, now: int, cfg: Settings, hash: string -> string): Outcome
  {
    VerifyWith(CodeFieldAsWritten, store, users, data, cookie, answer, parseTime, sessionOk, now, cfg, hash)
  }

  /** What the successful end of verify did to the store. */
  predicate Verified(store: Store, store': Store, ch: Checked, data: map<string, Value>, hash: string -> string)
  {
    var stateKey := StateKey(hash(ch.token));
    AttemptsKey(hash(ch.token)) !in store'
    && (if Get(data, "action") == Str(AuthUtils.Login) then stateKey !in store'
        else stateKey in store' && store'[stateKey] == VerifiedRecord(ch.fields, Get(data, "account")))
  }

  /** The end of verify writes only the state key and removes the attempt counter. */
  lemma FinishStore(store: Store, users: Users, ch: Checked, data: map<string, Value>, sessionOk: bool,
                    now: int, cfg: Settings, hash: string -> string)
    ensures var o := VerifyFinish(store, users, ch, data, sessionOk, now, cfg, hash);
      o.store.Keys <= store.Keys + {StateKey(hash(ch.token))}
      && (forall k :: k in o.store && k != StateKey(hash(ch.token)) ==> o.store[k] == store[k])
      && (o.resp.status == 200 ==> Verified(store, o.store, ch, data, hash))
  {
    KeysDistinct(hash(ch.token), hash(ch.token));
  }

  /** A 200 after the OTP lookup means the record passed its checks and is gone. */
  lemma VerifyOtpSucceeds(otpKey: string, counted: Store, users: Users, ch: Checked, data: map<string, Value>, submittedAt: Value,
                          parseTime: Value -> Option<int>, sessionOk: bool, now: int, cfg: Settings, hash: string -> string)
    requires otpKey != StateKey(hash(ch.token))
    ensures var o := VerifyOtp(otpKey, counted, users, ch, data, submittedAt, parseTime, sessionOk, now, cfg, hash);
      otpKey !in o.store
      && (o.resp.status == 200 ==>
            otpKey in counted && OtpCheck(Some(counted[otpKey]), ch.token, submittedAt, parseTime, cfg.otpTimeOut).Ok?
            && Verified(counted - {otpKey}, o.store, ch, data, hash))
  {
    FinishStore(counted - {otpKey}, users, ch, data, sessionOk, now, cfg, hash);
  }

  /** A 200 once the attempt is counted means the OTP record passed its checks and is gone. */
  lemma VerifyCountedSucceeds(codeField: string, counted: Store, attempts: int, users: Users, ch: Checked, data: map<string, Value>,
                              answer: Result<AuthUtils.Answer, AuthUtils.AnswerError>, parseTime: Value -> Option<int>,
                              sessionOk: bool, now: int, cfg: Settings, hash: string -> string)
    requires AnswerCodes(answer)
    ensures var o := VerifyCounted(codeField, counted, attempts, users, ch, data, answer, parseTime, sessionOk, now, cfg, hash);
      o.resp.status == 200 ==>
        attempts <= cfg.tokenRateLimit && answer.Ok?
        && var otpKey := SubmittedOtpKey(AnswerDict(answer.value), codeField);
        otpKey in counted && OtpCheck(Some(counted[otpKey]), ch.token, answer.value.submittedAt, parseTime, cfg.otpTimeOut).Ok?
        && otpKey !in o.store && Verified(counted - {otpKey}, o.store, ch, data, hash)
  {
    if attempts <= cfg.tokenRateLimit && answer.Ok? {
      var latest := AnswerDict(answer.value);
      var otpKey := SubmittedOtpKey(latest, codeField);
      KeysDistinct(PyStr(Get(latest, codeField)), hash(ch.token));
      VerifyOtpSucceeds(otpKey, counted, users, ch, data, answer.value.submittedAt, parseTime, sessionOk, now, cfg, hash);
    }
  }

  /**
   * A 200 from verify means: the cookie's token had a pending state record for the
   * requested action, the submitted OTP had a record naming that token whose initiation
   * time is at most `otpTimeOut` before the submission and not after it; that OTP record
   * is gone, the attempt counter is cleared, and the state is verified with the account
   * (or, for a login, deleted with the cookie).
   */
  lemma VerifySucceeds(codeField: string, store: Store, users: Users, data: map<string, Value>, cookie: Option<string>,
                       answer: Result<AuthUtils.Answer, AuthUtils.AnswerError>, parseTime: Value -> Option<int>,
                       sessionOk: bool, now: int, cfg: Settings, hash: string -> string)
    requires AnswerCodes(answer)
    ensures var o := VerifyWith(codeField, store, users, data, cookie, answer, parseTime, sessionOk, now, cfg, hash);
      o.resp.status == 200 ==>
        VerifyPrecheck(store, data, cookie, hash).Ok? && answer.Ok?
        && var ch := VerifyPrecheck(store, data, cookie, hash).value;
        var otpKey := SubmittedOtpKey(AnswerDict(answer.value), codeField);
        otpKey in store && OtpCheck(Some(store[otpKey]), ch.token, answer.value.submittedAt, parseTime, cfg.otpTimeOut).Ok?
        && otpKey !in o.store && Verified(store, o.store, ch, data, hash)
  {
    var o := VerifyWith(codeField, store, users, data, cookie, answer, parseTime, sessionOk, now, cfg, hash);
    match VerifyPrecheck(store, data, cookie, hash)
    case Err(_) =>
    case Ok(ch) =>
      var attemptsKey := AttemptsKey(hash(ch.token));
      match Incr(store, attemptsKey)
      case Err(_) =>
      case Ok((counted, attempts)) =>
        VerifyCountedSucceeds(codeField, counted, attempts, users, ch, data, answer, parseTime, sessionOk, now, cfg, hash);
        if o.resp.status == 200 {
          var otpKey := SubmittedOtpKey(AnswerDict(answer.value), codeField);
          KeysDistinct(PyStr(Get(AnswerDict(answer.value), codeField)), hash(ch.token));
          assert otpKey in store && counted[otpKey] == store[otpKey];
          VerifiedIgnoresOthers(store, counted - {otpKey}, o.store, ch, data, hash);
        }
  }

  /** `Verified` speaks only of the new store. */
  lemma VerifiedIgnoresOthers(a: Store, b: Store, store': Store, ch: Checked, data: map<string, Value>, hash: string -> string)
    requires Verified(b, store', ch, data, hash)
    ensures Verified(a, store', ch, data, hash)
  {
  }

  /** Once verified, the same token cannot be verified again, whatever is submitted. */
  lemma VerifyReplayRejected(codeField: string, store: Store, users: Users, data: map<string, Value>, cookie: Option<string>,
                             answer: Result<AuthUtils.Answer, AuthUtils.AnswerError>, parseTime: Value -> Option<int>,
                             sessionOk: bool, now: int, cfg: Settings, hash: string -> string,
                             data2: map<string, Value>, answer2: Result<AuthUtils.Answer, AuthUtils.AnswerError>, sessionOk2: bool, later: int)
    requires AnswerCodes(answer) && AnswerCodes(answer2)
    ensures var o := VerifyWith(codeField, store, users, data, cookie, answer, parseTime, sessionOk, now, cfg, hash);
      o.resp.status == 200 ==>
        VerifyPrecheck(o.store, data2, cookie, hash).Err?
        && VerifyWith(codeField, o.store, o.users, data2, cookie, answer2, parseTime, sessionOk2, later, cfg, hash).resp.status != 200
  {
    VerifySucceeds(codeField, store, users, data, cookie, answer, parseTime, sessionOk, now, cfg, hash);
    var o := VerifyWith(codeField, store, users, data, cookie, answer, parseTime, sessionOk, now, cfg, hash);
    if o.resp.status == 200 {
      var ch := VerifyPrecheck(store, data, cookie, hash).value;
      VerifiedBlocksPrecheck(store, o.store, ch, data, data2, hash);
      PrecheckBlocksVerify(codeField, o.store, o.users, data2, cookie, answer2, parseTime, sessionOk2, later, cfg, hash);
    }
  }

  /** A state that verify has finished with (verified, or deleted by a login) no longer passes the state checks. */
  lemma VerifiedBlocksPrecheck(store: Store, store': Store, ch: Checked, data: map<string, Value>, data2: map<string, Value>,
                               hash: string -> string)
    requires Verified(store, store', ch, data, hash)
    ensures VerifyPrecheck(store', data2, Some(ch.token), hash).Err?
  {
    var stateKey := StateKey(hash(ch.token));
    if stateKey in store' && store'[stateKey].Record? {
      assert Get(store'[stateKey].fields, "status") == Str("verified");
    }
  }

  /** A request that fails the state checks is never answered with a 200. */
  lemma PrecheckBlocksVerify(codeField: string, store: Store, users: Users, data: map<string, Value>, cookie: Option<string>,
                             answer: Result<AuthUtils.Answer, AuthUtils.AnswerError>, parseTime: Value -> Option<int>,
                             sessionOk: bool, now: int, cfg: Settings, hash: string -> string)
    requires VerifyPrecheck(store, data, cookie, hash).Err?
    ensures VerifyWith(codeField, store, users, data, cookie, answer, parseTime, sessionOk, now, cfg, hash).resp.status != 200
  {
    var halt := VerifyPrecheck(store, data, cookie, hash).error;
    assert VerifyWith(codeField, store, users, data, cookie, answer, parseTime, sessionOk, now, cfg, hash).resp
      == if halt.Reply? then halt.resp else Uncaught;
  }

  /**
   * With the state checks passed, the attempt is counted; a count above the limit is a
   * 429 that changes nothing but the counter, so no OTP record is touched.
   */
  lemma VerifyRateLimited(codeField: string, store: Store, users: Users, data: map<string, Value>, cookie: Option<string>,
                          answer: Result<AuthUtils.Answer, AuthUtils.AnswerError>, parseTime: Value -> Option<int>,
                          sessionOk: bool, now: int, cfg: Settings, hash: string -> string)
    requires VerifyPrecheck(store, data, cookie, hash).Ok?
    ensures var key := AttemptsKey(hash(cookie.value));
      var attempts := if key in store && store[key].Count? then store[key].n + 1 else 1;
      var o := VerifyWith(codeField, store, users, data, cookie, answer, parseTime, sessionOk, now, cfg, hash);
      (key !in store || store[key].Count?) && attempts > cfg.tokenRateLimit ==>
        o.resp.status == 429 && o.store == store[key := Count(attempts)] && o.users == users
        && (forall otp :: OtpKey(otp) in store ==> OtpKey(otp) in o.store && o.store[OtpKey(otp)] == store[OtpKey(otp)])
  {
    var key := AttemptsKey(hash(cookie.value));
    forall otp | OtpKey(otp) in store
      ensures OtpKey(otp) != key
    {
      KeysDistinct(otp, hash(cookie.value));
    }
  }

  /**
   * Once the answer matches, the submitted OTP's record is deleted, whether or not the
   * checks after it pass: an OTP is consumed at most once.
   */
  lemma VerifyConsumesOtp(codeField: string, store: Store, users: Users, data: map<string, Value>, cookie: Option<string>,
                          a: AuthUtils.Answer, parseTime: Value -> Option<int>,
                          sessionOk: bool, now: int, cfg: Settings, hash: string -> string)
    requires VerifyPrecheck(store, data, cookie, hash).Ok?
    requires var key := AttemptsKey(hash(cookie.value));
      (key !in store || store[key].Count?) && (if key in store then store[key].n + 1 else 1) <= cfg.tokenRateLimit
    requires PyStr(a.id) == PyStr(Get(data, "answer_id"))
    ensures SubmittedOtpKey(AnswerDict(a), codeField) !in
      VerifyWith(codeField, store, users, data, cookie, Ok(a), parseTime, sessionOk, now, cfg, hash).store
  {
    var ch := VerifyPrecheck(store, data, cookie, hash).value;
    var (counted, attempts) := Incr(store, AttemptsKey(hash(ch.token))).value;
    CountedConsumesOtp(codeField, counted, attempts, users, ch, data, a, parseTime, sessionOk, now, cfg, hash);
  }

  /** Within the rate limit and with the right answer, the submitted OTP's record is gone afterwards. */
  lemma CountedConsumesOtp(codeField: string, counted: Store, attempts: int, users: Users, ch: Checked, data: map<string, Value>,
                           a: AuthUtils.Answer, parseTime: Value -> Option<int>,
                           sessionOk: bool, now: int, cfg: Settings, hash: string -> string)
    requires attempts <= cfg.tokenRateLimit
    requires PyStr(a.id) == PyStr(Get(data, "answer_id"))
    ensures SubmittedOtpKey(AnswerDict(a), codeField) !in
      VerifyCounted(codeField, counted, attempts, users, ch, data, Ok(a), parseTime, sessionOk, now, cfg, hash).store
  {
    var latest := AnswerDict(a);
    AnswerDictFields(a);
    KeysDistinct(PyStr(Get(latest, codeField)), hash(ch.token));
    VerifyOtpSucceeds(SubmittedOtpKey(latest, codeField), counted, users, ch, data, a.submittedAt, parseTime, sessionOk, now, cfg, hash);
  }

  /** The answer dictionary holds the answer's id and submission time. */
  lemma AnswerDictFields(a: AuthUtils.Answer)
    ensures Get(AnswerDict(a), "id") == a.id && Get(AnswerDict(a), "submitted_at") == a.submittedAt
  {
  }

  /** The attempt counter disappears only when the OTP checks have passed. */
  lemma VerifyCountedClears(codeField: string, counted: Store, attempts: int, users: Users, ch: Checked, data: map<string, Value>,
                            answer: Result<AuthUtils.Answer, AuthUtils.AnswerError>, parseTime: Value -> Option<int>,
                            sessionOk: bool, now: int, cfg: Settings, hash: string -> string)
    requires AttemptsKey(hash(ch.token)) in counted
    ensures var o := VerifyCounted(codeField, counted, attempts, users, ch, data, answer, parseTime, sessionOk, now, cfg, hash);
      AttemptsKey(hash(ch.token)) !in o.store ==>
        attempts <= cfg.tokenRateLimit && answer.Ok?
        && var otpKey := SubmittedOtpKey(AnswerDict(answer.value), codeField);
        otpKey in counted && OtpCheck(Some(counted[otpKey]), ch.token, answer.value.submittedAt, parseTime, cfg.otpTimeOut).Ok?
  {
    if attempts <= cfg.tokenRateLimit && answer.Ok? {
      var latest := AnswerDict(answer.value);
      KeysDistinct(PyStr(Get(latest, codeField)), hash(ch.token));
    }
  }

  /**
   * The attempt counter is cleared only by a verify whose OTP checks passed (token and
   * time window), never by a failed one.
   */
  lemma VerifyClearsCounterOnlyOnSuccess(codeField: string, store: Store, users: Users, data: map<string, Value>, cookie: Option<string>,
                                         answer: Result<AuthUtils.Answer, AuthUtils.AnswerError>, parseTime: Value -> Option<int>,
                                         sessionOk: bool, now: int, cfg: Settings, hash: string -> string)
    requires cookie.Some? && AttemptsKey(hash(cookie.value)) in store
    ensures var o := VerifyWith(codeField, store, users, data, cookie, answer, parseTime, sessionOk, now, cfg, hash);
      AttemptsKey(hash(cookie.value)) !in o.store ==>
        VerifyPrecheck(store, data, cookie, hash).Ok? && answer.Ok?
        && var otpKey := SubmittedOtpKey(AnswerDict(answer.value), codeField);
        otpKey in store && OtpCheck(Some(store[otpKey]), cookie.value, answer.value.submittedAt, parseTime, cfg.otpTimeOut).Ok?
  {
    match VerifyPrecheck(store, data, cookie, hash)
    case Err(_) =>
    case Ok(ch) =>
      match Incr(store, AttemptsKey(hash(ch.token)))
      case Err(_) =>
      case Ok((counted, attempts)) =>
        VerifyCountedClears(codeField, counted, attempts, users, ch, data, answer, parseTime, sessionOk, now, cfg, hash);
        if answer.Ok? {
          KeysDistinct(PyStr(Get(AnswerDict(answer.value), codeField)), hash(ch.token));
        }
  }

  /** The answer has no `verification_code` field. */
  lemma AnswerLacksCode(a: AuthUtils.Answer)
    ensures SubmittedOtpKey(AnswerDict(a), CodeFieldAsWritten) == OtpKey("None")
  {
    assert CodeFieldAsWritten !in AnswerDict(a);
  }

  /** `initiate` never writes `otp:None`. */
  lemma NoneKeyAbsent(store: Store)
    requires OtpKeysWellFormed(store)
    ensures OtpKey("None") !in store
  {
  }

  /**
   * As written, the view reads the code from `verification_code`, a field the answer
   * never has, so it looks up `otp:None`, which `initiate` never writes: no verify
   * succeeds.
   */
  lemma VerifyAsWrittenNeverSucceeds(store: Store, users: Users, data: map<string, Value>, cookie: Option<string>,
                                     answer: Result<AuthUtils.Answer, AuthUtils.AnswerError>, parseTime: Value -> Option<int>,
                                     sessionOk: bool, now: int, cfg: Settings, hash: string -> string)
    requires OtpKeysWellFormed(store) && AnswerCodes(answer)
    ensures VerifyResult(store, users, data, cookie, answer, parseTime, sessionOk, now, cfg, hash).resp.status != 200
  {
    VerifySucceeds(CodeFieldAsWritten, store, users, data, cookie, answer, parseTime, sessionOk, now, cfg, hash);
    NoneKeyAbsent(store);
    if answer.Ok? {
      AnswerLacksCode(answer.value);
    }
  }

  /** Past the checks, `initiate` leaves the store `InitiateWrite` describes. */
  lemma InitiateWrites(store: Store, data: map<string, Value>, cookie: Option<string>,
                       otpBytes: seq<byte>, tempToken: string, now: int, cfg: Settings, hash: string -> string)
    requires |otpBytes| == 6 && !InitiateRefused(data, cfg)
    ensures InitiateResult(store, data, cookie, TurnstilePassed, otpBytes, tempToken, now, cfg, hash).0
      == InitiateWrite(store, cookie, OtpOf(otpBytes), tempToken, now, Get(data, "action"), hash)
  {
  }

  /** What `initiate` leaves for the new token: its OTP record, its pending state, no attempts. */
  lemma InitiateReady(store: Store, cookie: Option<string>, otp: string, token: string, t0: int, action: Value, hash: string -> string)
    requires AttemptsKey(hash(token)) !in store
    ensures var store1 := InitiateWrite(store, cookie, otp, token, t0, action, hash);
      AttemptsKey(hash(token)) !in store1 && OtpKey(otp) in store1 && store1[OtpKey(otp)] == OtpRecord(token, t0)
      && StateKey(hash(token)) in store1 && store1[StateKey(hash(token))] == PendingRecord(action)
  {
    InitiateStores(store, cookie, otp, token, t0, action, hash);
    KeysDistinct(otp, hash(token));
    KeysDistinct(hash(token), hash(token));
  }

  /** A first attempt with a matching answer and a passing OTP record reaches the end of verify. */
  lemma VerifyCountedReachesFinish(codeField: string, counted: Store, users: Users, ch: Checked, data: map<string, Value>,
                                   a: AuthUtils.Answer, parseTime: Value -> Option<int>,
                                   sessionOk: bool, now: int, cfg: Settings, hash: string -> string)
    requires 1 <= cfg.tokenRateLimit && PyStr(a.id) == PyStr(Get(data, "answer_id"))
    requires var otpKey := SubmittedOtpKey(AnswerDict(a), codeField);
      otpKey in counted && OtpCheck(Some(counted[otpKey]), ch.token, a.submittedAt, parseTime, cfg.otpTimeOut).Ok?
    ensures VerifyCounted(codeField, counted, 1, users, ch, data, Ok(a), parseTime, sessionOk, now, cfg, hash)
      == VerifyFinish(counted - {SubmittedOtpKey(AnswerDict(a), codeField)}, users, ch, data, sessionOk, now, cfg, hash)
  {
  }

  /** The end of verify answers 200 unless a login finds no session or an inactive user. */
  lemma FinishSucceeds(store: Store, users: Users, ch: Checked, data: map<string, Value>, sessionOk: bool,
                       now: int, cfg: Settings, hash: string -> string)
    requires Get(data, "action") == Str(AuthUtils.Login) ==>
      sessionOk && (PyStr(Get(data, "account")) in users ==> users[PyStr(Get(data, "account"))].active)
    ensures VerifyFinish(store, users, ch, data, sessionOk, now, cfg, hash).resp.status == 200
  {
  }

  /**
   * A store holding a token's pending state and its OTP record, and no attempts for it,
   * lets a matching answer submitted in time verify (the code read from `otp`).
   */
  lemma VerifyFromReady(store1: Store, users: Users, otp: string, token: string, t0: int, action: Value, cfg: Settings,
                        hash: string -> string, dataV: map<string, Value>, a: AuthUtils.Answer, parseTime: Value -> Option<int>,
                        sessionOk: bool, now: int)
    requires AttemptsKey(hash(token)) !in store1 && OtpKey(otp) in store1 && store1[OtpKey(otp)] == OtpRecord(token, t0)
    requires StateKey(hash(token)) in store1 && store1[StateKey(hash(token))] == PendingRecord(action)
    requires token != "" && t0 != 0 && cfg.tokenRateLimit >= 1
    requires Truthy(Get(dataV, "account")) && Truthy(Get(dataV, "answer_id")) && Truthy(action) && Get(dataV, "action") == action
    requires a.otp == Str(otp) && PyStr(a.id) == PyStr(Get(dataV, "answer_id"))
    requires parseTime(a.submittedAt).Some? && t0 <= parseTime(a.submittedAt).value <= t0 + cfg.otpTimeOut
    requires Get(dataV, "action") == Str(AuthUtils.Login) ==>
      sessionOk && (PyStr(Get(dataV, "account")) in users ==> users[PyStr(Get(dataV, "account"))].active)
    ensures VerifyWith(CodeField, store1, users, dataV, Some(token), Ok(a), parseTime, sessionOk, now, cfg, hash).resp.status == 200
  {
    var ch := Checked(token, PendingRecord(action).fields);
    var attemptsKey := AttemptsKey(hash(token));
    var counted := store1[attemptsKey := Count(1)];
    var otpKey := SubmittedOtpKey(AnswerDict(a), CodeField);
    assert otpKey == OtpKey(otp) by {
      assert Get(AnswerDict(a), CodeField) == a.otp;
    }
    assert otpKey in counted && counted[otpKey] == OtpRecord(token, t0) by {
      KeysDistinct(otp, hash(token));
    }
    assert VerifyPrecheck(store1, dataV, Some(token), hash) == Ok(ch) by {
      assert Get(ch.fields, "status") == Str("pending") && Get(ch.fields, "action") == action;
    }
    assert Incr(store1, attemptsKey) == Ok((counted, 1));
    assert VerifyWith(CodeField, store1, users, dataV, Some(token), Ok(a), parseTime, sessionOk, now, cfg, hash)
        == VerifyCounted(CodeField, counted, 1, users, ch, dataV, Ok(a), parseTime, sessionOk, now, cfg, hash);
    FreshOtpPasses(token, t0, a.submittedAt, parseTime, cfg.otpTimeOut);
    VerifyCountedReachesFinish(CodeField, counted, users, ch, dataV, a, parseTime, sessionOk, now, cfg, hash);
    FinishSucceeds(counted - {otpKey}, users, ch, dataV, sessionOk, now, cfg, hash);
  }

  /** The OTP record `initiate` wrote passes the checks for its own token, submitted within the window. */
  lemma FreshOtpPasses(token: string, t0: int, submittedAt: Value, parseTime: Value -> Option<int>, timeout: int)
    requires token != "" && t0 != 0
    requires parseTime(submittedAt).Some? && t0 <= parseTime(submittedAt).value <= t0 + timeout
    ensures OtpCheck(Some(OtpRecord(token, t0)), token, submittedAt, parseTime, timeout).Ok?
  {
    var f := OtpRecord(token, t0).fields;
    assert Get(f, "temp_token") == Str(token) && Get(f, "initiated_at") == Int(t0);
  }

  /**
   * Read from `otp`, the field the code is under, an initiate followed by a verify of
   * a matching answer in time succeeds: the OTP record is there with the token, and the
   * new token has a pending state and no attempts yet.
   */
  lemma InitiateThenVerify(store: Store, users: Users, dataI: map<string, Value>, cookie0: Option<string>, otpBytes: seq<byte>,
                           token: string, t0: int, cfg: Settings, hash: string -> string,
                           dataV: map<string, Value>, a: AuthUtils.Answer, parseTime: Value -> Option<int>, sessionOk: bool, now: int)
    requires |otpBytes| == 6 && !InitiateRefused(dataI, cfg)
    requires token != "" && t0 != 0 && cfg.tokenRateLimit >= 1 && AttemptsKey(hash(token)) !in store
    requires Truthy(Get(dataV, "account")) && Truthy(Get(dataV, "answer_id")) && Get(dataV, "action") == Get(dataI, "action")
    requires a.otp == Str(OtpOf(otpBytes)) && PyStr(a.id) == PyStr(Get(dataV, "answer_id"))
    requires parseTime(a.submittedAt).Some? && t0 <= parseTime(a.submittedAt).value <= t0 + cfg.otpTimeOut
    requires Get(dataV, "action") == Str(AuthUtils.Login) ==>
      sessionOk && (PyStr(Get(dataV, "account")) in users ==> users[PyStr(Get(dataV, "account"))].active)
    ensures var store1 := InitiateResult(store, dataI, cookie0, TurnstilePassed, otpBytes, token, t0, cfg, hash).0;
      VerifyWith(CodeField, store1, users, dataV, Some(token), Ok(a), parseTime, sessionOk, now, cfg, hash).resp.status == 200
  {
    var otp := OtpOf(otpBytes);
    var action := Get(dataI, "action");
    InitiateWrites(store, dataI, cookie0, otpBytes, token, t0, cfg, hash);
    InitiateReady(store, cookie0, otp, token, t0, action, hash);
    VerifyFromReady(InitiateWrite(store, cookie0, otp, token, t0, action, hash), users, otp, token, t0, action, cfg, hash,
                    dataV, a, parseTime, sessionOk, now);
  }

  // ---------------------------------------------------------------------------
  // verify_psd_checker, auth_signup_api, auth_reset_password_api
  // ---------------------------------------------------------------------------

  /** What the password check hands on: the verified account, the password and the state key. */
  datatype Grant = Grant(account: Value, password: string, stateKey: string)

  /** The error body of a password that fails the strength check. */
  function StrengthBody(e: AuthUtils.PasswordError): map<string, Value>
  {
    match e
    case TooShort(n) => map["error" := Str("Password must be equal to or more than " + IntToString(n) + " characters long.")]
    case MissingCharacterClasses => map["error" := Str("Password must contain at least one uppercase letter, one lowercase letter, and one numeric digit.")]
    case FrameworkRejected(ms) => map["error" := List(seq(|ms|, k requires 0 <= k < |ms| => Str(ms[k])))]
  }

  /** `len(password)` for the JSON values that have one. */
  function LengthOf(v: Value): Option<int>
  {
    match v
    case Str(s) => Some(|s|)
    case List(items) => Some(|items|)
    case Dict(m) => Some(|m|)
    case _ => None
  }

  /**
   * `validate_password_strength` on any JSON value: a string goes through the checks; a
   * list or object shorter than the minimum is refused for its length, and anything else
   * raises (no `len`, or no pattern match on a non-string).
   */
  function PasswordVerdict(password: Value, minLength: int, frameworkErrors: string -> seq<string>): Result<string, Halt>
  {
    match password
    case Str(p) =>
      var (ok, err) := AuthUtils.ValidatePasswordStrength(p, minLength, frameworkErrors);
      if ok then Ok(p) else Err(Reply(Response(400, StrengthBody(err.value), KeepCookie)))
    case _ =>
      if LengthOf(password).Some? && LengthOf(password).value < minLength
      then Err(Reply(Response(400, StrengthBody(AuthUtils.TooShort(minLength)), KeepCookie)))
      else Err(Raised)
  }

  /**
   * `verify_psd_checker(action)`: a cookie token whose state is verified for `action`,
   * a password that passes the strength check, and an account in the state.
   */
  function PsdCheck(store: Store, data: map<string, Value>, cookie: Option<string>, action: string, cfg: Settings,
                    frameworkErrors: string -> seq<string>, hash: string -> string): (r: Result<Grant, Halt>)
    ensures r.Ok? <==>
      cookie.Some? && cookie.value != "" && StateKey(hash(cookie.value)) in store
      && store[StateKey(hash(cookie.value))].Record?
      && Get(store[StateKey(hash(cookie.value))].fields, "status") == Str("verified")
      && Get(store[StateKey(hash(cookie.value))].fields, "action") == Str(action)
      && Get(data, "password").Str? && Get(data, "password").s != ""
      && AuthUtils.ValidatePasswordStrength(Get(data, "password").s, cfg.passwordLengthMin, frameworkErrors).0
      && Truthy(Get(store[StateKey(hash(cookie.value))].fields, "account"))
    ensures r.Ok? ==> r.value == Grant(Get(store[StateKey(hash(cookie.value))].fields, "account"),
                                       Get(data, "password").s, StateKey(hash(cookie.value)))
    ensures r.Err? && r.error.Reply? ==> r.error.resp.status != 200
  {
    if cookie.None? || cookie.value == "" then Err(Reply(Fail(401, "No temp_token found")))
    else
      var key := StateKey(hash(cookie.value));
      match ReadState(store, key)
      case Err(h) => Err(h)
      case Ok(fields) =>
        if Get(fields, "status") != Str("verified") || Get(fields, "action") != Str(action)
        then Err(Reply(Fail(403, "Invalid temp token state")))
        else if !Truthy(Get(data, "password")) then Err(Reply(Fail(400, "Missing password")))
        else match PasswordVerdict(Get(data, "password"), cfg.passwordLengthMin, frameworkErrors)
          case Err(h) => Err(h)
          case Ok(p) =>
            if !Truthy(Get(fields, "account")) then Err(Reply(Fail(401, "No account in verified state")))
            else Ok(Grant(Get(fields, "account"), p, key))
  }

  /** The body both password endpoints answer with on success. */
  function Done(name: string): Response
  {
    Response(200, map["success" := Bool(true), "username" := Str(name)], DeleteCookie)
  }

  /**
   * `auth_signup_api`: past the password check, the user is fetched or created; one that
   * already has a password gets 409; otherwise the password is set, the user activated and
   * the state record deleted. An exception anywhere becomes a 500.
   */
  function SignupResult(store: Store, users: Users, data: map<string, Value>, cookie: Option<string>, sessionOk: bool,
                        cfg: Settings, frameworkErrors: string -> seq<string>, hash: string -> string): Outcome
  {
    match PsdCheck(store, data, cookie, AuthUtils.Signup, cfg, frameworkErrors, hash)
    case Err(Reply(resp)) => Outcome(store, users, resp)
    case Err(Raised) => Outcome(store, users, Fail(500, "Failed to complete signup"))
    case Ok(g) => SignupGranted(store, users, g, sessionOk, cfg)
  }

  /** Signup once the password check has granted `g`. */
  function SignupGranted(store: Store, users: Users, g: Grant, sessionOk: bool, cfg: Settings): Outcome
  {
    match CreateUserSession(users, g.account, cfg.emailDomain, sessionOk)
    case Err(resp) => Outcome(store, users, resp)
    case Ok((users', name)) =>
      if users'[name].password.Some? then Outcome(store, users', Fail(409, "User already exists with password."))
      else Outcome(store - {g.stateKey}, users'[name := users'[name].(active := true, password := Some(g.password))], Done(name))
  }

  /**
   * `auth_reset_password_api`: past the password check, the existing user gets the new
   * password and the state record is deleted; a missing user is a 404.
   */
  function ResetResult(store: Store, users: Users, data: map<string, Value>, cookie: Option<string>,
                       cfg: Settings, frameworkErrors: string -> seq<string>, hash: string -> string): Outcome
  {
    match PsdCheck(store, data, cookie, AuthUtils.ResetPassword, cfg, frameworkErrors, hash)
    case Err(Reply(resp)) => Outcome(store, users, resp)
    case Err(Raised) => Outcome(store, users, Fail(500, "Failed to reset password"))
    case Ok(g) => ResetGranted(store, users, g)
  }

  /** Reset once the password check has granted `g`. */
  function ResetGranted(store: Store, users: Users, g: Grant): Outcome
  {
    var name := PyStr(g.account);
    if name !in users then Outcome(store, users, Fail(404, "User does not exist"))
    else Outcome(store - {g.stateKey}, users[name := users[name].(password := Some(g.password))], Done(name))
  }

  /**
   * A 200 from signup means the token's state was verified for signup with an account
   * and the password passed the check; the user named by that account now has that
   * password and is active, and the state record is gone with the cookie.
   */
  lemma SignupSucceeds(store: Store, users: Users, data: map<string, Value>, cookie: Option<string>, sessionOk: bool,
                       cfg: Settings, frameworkErrors: string -> seq<string>, hash: string -> string)
    ensures var o := SignupResult(store, users, data, cookie, sessionOk, cfg, frameworkErrors, hash);
      o.resp.status == 200 ==>
        PsdCheck(store, data, cookie, AuthUtils.Signup, cfg, frameworkErrors, hash).Ok?
        && var g := PsdCheck(store, data, cookie, AuthUtils.Signup, cfg, frameworkErrors, hash).value;
        var name := PyStr(g.account);
        name in o.users && o.users[name].password == Some(g.password) && o.users[name].active
        && (name in users ==> users[name].password.None?)
        && g.stateKey !in o.store && o.store == store - {g.stateKey} && o.resp.cookie == DeleteCookie
  {
    var check := PsdCheck(store, data, cookie, AuthUtils.Signup, cfg, frameworkErrors, hash);
    if check.Ok? {
      SignupGrantedSucceeds(store, users, check.value, sessionOk, cfg);
    }
  }

  /** A 200 from signup past the check: the user has the granted password and is active, and the state record is gone. */
  lemma SignupGrantedSucceeds(store: Store, users: Users, g: Grant, sessionOk: bool, cfg: Settings)
    ensures var o := SignupGranted(store, users, g, sessionOk, cfg);
      var name := PyStr(g.account);
      o.resp.status == 200 ==>
        name in o.users && o.users[name].password == Some(g.password) && o.users[name].active
        && (name in users ==> users[name].password.None?)
        && g.stateKey !in o.store && o.store == store - {g.stateKey} && o.resp.cookie == DeleteCookie
  {
  }

  /** A user who already has a password is refused with 409, and nothing changes. */
  lemma SignupRefusesExisting(store: Store, users: Users, data: map<string, Value>, cookie: Option<string>, sessionOk: bool,
                              cfg: Settings, frameworkErrors: string -> seq<string>, hash: string -> string)
    requires sessionOk && PsdCheck(store, data, cookie, AuthUtils.Signup, cfg, frameworkErrors, hash).Ok?
    requires var name := PyStr(PsdCheck(store, data, cookie, AuthUtils.Signup, cfg, frameworkErrors, hash).value.account);
      name in users && users[name].password.Some?
    ensures SignupResult(store, users, data, cookie, sessionOk, cfg, frameworkErrors, hash) == Outcome(store, users, Fail(409, "User already exists with password."))
  {
  }

  /**
   * A 200 from a reset means the token's state was verified for a password reset and the
   * user exists; that user now has the new password, nothing else about them changed,
   * and the state record is gone.
   */
  lemma ResetSucceeds(store: Store, users: Users, data: map<string, Value>, cookie: Option<string>,
                      cfg: Settings, frameworkErrors: string -> seq<string>, hash: string -> string)
    ensures var o := ResetResult(store, users, data, cookie, cfg, frameworkErrors, hash);
      o.resp.status == 200 ==>
        PsdCheck(store, data, cookie, AuthUtils.ResetPassword, cfg, frameworkErrors, hash).Ok?
        && var g := PsdCheck(store, data, cookie, AuthUtils.ResetPassword, cfg, frameworkErrors, hash).value;
        var name := PyStr(g.account);
        name in users && o.users == users[name := users[name].(password := Some(g.password))]
        && o.store == store - {g.stateKey}
  {
    var check := PsdCheck(store, data, cookie, AuthUtils.ResetPassword, cfg, frameworkErrors, hash);
    if check.Ok? {
      ResetGrantedSucceeds(store, users, check.value);
    }
  }

  /** A 200 from reset past the check: the existing user has the granted password and the state record is gone. */
  lemma ResetGrantedSucceeds(store: Store, users: Users, g: Grant)
    ensures var o := ResetGranted(store, users, g);
      var name := PyStr(g.account);
      o.resp.status == 200 ==>
        name in users && o.users == users[name := users[name].(password := Some(g.password))]
        && o.store == store - {g.stateKey}
  {
  }

  /** A token verified for one action cannot set a password through the other endpoint. */
  lemma GrantIsPerAction(store: Store, data: map<string, Value>, cookie: Option<string>, cfg: Settings,
                         frameworkErrors: string -> seq<string>, hash: string -> string)
    ensures !(PsdCheck(store, data, cookie, AuthUtils.Signup, cfg, frameworkErrors, hash).Ok?
              && PsdCheck(store, data, cookie, AuthUtils.ResetPassword, cfg, frameworkErrors, hash).Ok?)
  {
  }

  /** A token that only got as far as `initiate` (still pending) cannot set a password. */
  lemma PendingCannotSetPassword(store: Store, cookie: Option<string>, otp: string, token: string, t0: int, action: Value,
                                 data: map<string, Value>, which: string, cfg: Settings,
                                 frameworkErrors: string -> seq<string>, hash: string -> string)
    ensures PsdCheck(InitiateWrite(store, cookie, otp, token, t0, action, hash), data, Some(token), which, cfg, frameworkErrors, hash).Err?
  {
    InitiateStores(store, cookie, otp, token, t0, action, hash);
  }

  // ---------------------------------------------------------------------------
  // The store invariant
  // ---------------------------------------------------------------------------

  /** Adding only a token's state or attempt key keeps the OTP keys well formed. */
  lemma GrowKeepsOtpKeys(store: Store, store': Store, h: string)
    requires OtpKeysWellFormed(store) && store'.Keys <= store.Keys + {StateKey(h), AttemptsKey(h)}
    ensures OtpKeysWellFormed(store')
  {
    forall x | OtpKey(x) in store'
      ensures |x| == 8
    {
      KeysDistinct(x, h);
    }
  }

  /** From the rate limit on, verify adds no key but the token's state. */
  lemma CountedTouches(codeField: string, counted: Store, attempts: int, users: Users, ch: Checked, data: map<string, Value>,
                       answer: Result<AuthUtils.Answer, AuthUtils.AnswerError>, parseTime: Value -> Option<int>,
                       sessionOk: bool, now: int, cfg: Settings, hash: string -> string)
    ensures VerifyCounted(codeField, counted, attempts, users, ch, data, answer, parseTime, sessionOk, now, cfg, hash).store.Keys
      <= counted.Keys + {StateKey(hash(ch.token))}
  {
    if attempts <= cfg.tokenRateLimit && answer.Ok? {
      var otpKey := SubmittedOtpKey(AnswerDict(answer.value), codeField);
      FinishStore(counted - {otpKey}, users, ch, data, sessionOk, now, cfg, hash);
    }
  }

  /** Verify adds no key but the cookie token's state record and attempt counter. */
  lemma VerifyTouches(codeField: string, store: Store, users: Users, data: map<string, Value>, cookie: Option<string>,
                      answer: Result<AuthUtils.Answer, AuthUtils.AnswerError>, parseTime: Value -> Option<int>,
                      sessionOk: bool, now: int, cfg: Settings, hash: string -> string)
    ensures var o := VerifyWith(codeField, store, users, data, cookie, answer, parseTime, sessionOk, now, cfg, hash);
      if cookie.Some? then o.store.Keys <= store.Keys + {StateKey(hash(cookie.value)), AttemptsKey(hash(cookie.value))}
      else o.store == store
  {
    match VerifyPrecheck(store, data, cookie, hash)
    case Err(_) =>
    case Ok(ch) =>
      match Incr(store, AttemptsKey(hash(ch.token)))
      case Err(_) =>
      case Ok((counted, attempts)) =>
        assert VerifyWith(codeField, store, users, data, cookie, answer, parseTime, sessionOk, now, cfg, hash)
          == VerifyCounted(codeField, counted, attempts, users, ch, data, answer, parseTime, sessionOk, now, cfg, hash);
        CountedTouches(codeField, counted, attempts, users, ch, data, answer, parseTime, sessionOk, now, cfg, hash);
        KeysAfterCount(store, counted, VerifyCounted(codeField, counted, attempts, users, ch, data, answer, parseTime, sessionOk, now, cfg, hash).store,
                       StateKey(hash(ch.token)), AttemptsKey(hash(ch.token)), attempts);
  }

  /** Keys written after counting an attempt are the old keys, the counter and one more. */
  lemma KeysAfterCount(store: Store, counted: Store, store': Store, k: string, counter: string, n: int)
    requires counted == store[counter := Count(n)] && store'.Keys <= counted.Keys + {k}
    ensures store'.Keys <= store.Keys + {k, counter}
  {
  }

  /** Verify writes only its counter and the state record, so the OTP keys stay well formed. */
  lemma VerifyKeepsOtpKeys(codeField: string, store: Store, users: Users, data: map<string, Value>, cookie: Option<string>,
                           answer: Result<AuthUtils.Answer, AuthUtils.AnswerError>, parseTime: Value -> Option<int>,
                           sessionOk: bool, now: int, cfg: Settings, hash: string -> string)
    requires OtpKeysWellFormed(store)
    ensures OtpKeysWellFormed(VerifyWith(codeField, store, users, data, cookie, answer, parseTime, sessionOk, now, cfg, hash).store)
  {
    VerifyTouches(codeField, store, users, data, cookie, answer, parseTime, sessionOk, now, cfg, hash);
    if cookie.Some? {
      GrowKeepsOtpKeys(store, VerifyWith(codeField, store, users, data, cookie, answer, parseTime, sessionOk, now, cfg, hash).store,
                       hash(cookie.value));
    }
  }

  /**
   * The key-value store and the user table behind the auth endpoints. Every OTP key
   * holds an eight-character OTP.
   */
  class AuthStore {
    var store: Store
    var users: Users

    constructor(users: Users)
      ensures store == map[] && this.users == users
    {
      store := map[];
      this.users := users;
    }

    /** `auth_initiate_api`. */
    method Initiate(data: map<string, Value>, cookie: Option<string>, turnstile: Turnstile, otpBytes: seq<byte>,
                    tempToken: string, now: int, cfg: Settings, hash: string -> string) returns (resp: Response)
      requires |otpBytes| == 6
      modifies this
      ensures (store, resp) == InitiateResult(old(store), data, cookie, turnstile, otpBytes, tempToken, now, cfg, hash)
      ensures users == old(users)
    {
      var action := Get(data, "action");
      var turnstileToken := Get(data, "turnstile_token");
      if !Truthy(action) || !Truthy(turnstileToken) {
        return Fail(400, "Missing action or turnstile_token");
      }
      if !(action.Str? && action.s in cfg.actionList) {
        return Fail(400, "Invalid action");
      }
      if turnstile == TurnstileRejected {
        return Fail(403, "Turnstile verification failed");
      }
      if turnstile == TurnstileError {
        return Fail(500, "Turnstile verification error");
      }
      var otp := Base64Encode(otpBytes)[..8];
      WriteOtp(cookie, otp, tempToken, now, action, hash);
      var url := AuthUtils.GetSurveyUrl(cfg.survey, action.s);
      if !Truthy(url) {
        return Fail(500, "Something went wrong when fetching the survey URL");
      }
      resp := Response(200, map["otp" := Str(otp), "redirect_url" := url], SetCookie(tempToken));
    }

    /** The writes of `initiate`: the clean-up of the cookie's old state, the OTP record, the new pending state. */
    method WriteOtp(cookie: Option<string>, otp: string, tempToken: string, now: int, action: Value, hash: string -> string)
      modifies this
      ensures store == InitiateWrite(old(store), cookie, otp, tempToken, now, action, hash) && users == old(users)
    {
      if cookie.Some? && cookie.value != "" {
        var oldKey := StateKey(hash(cookie.value));
        if oldKey in store && !store[oldKey].Unreadable? {
          store := store - {oldKey};
        }
      }
      store := store[OtpKey(otp) := OtpRecord(tempToken, now)];
      store := store[StateKey(hash(tempToken)) := PendingRecord(action)];
    }

    /**
     * `verify_callback_api` as written: the submitted code is read from the answer's
     * `verification_code`, so with well-formed OTP keys no request verifies.
     */
    method VerifyCallback(data: map<string, Value>, cookie: Option<string>, answer: Result<AuthUtils.Answer, AuthUtils.AnswerError>,
                          parseTime: Value -> Option<int>, sessionOk: bool, now: int, cfg: Settings, hash: string -> string)
      returns (resp: Response)
      modifies this
      ensures Outcome(store, users, resp) == VerifyResult(old(store), old(users), data, cookie, answer, parseTime, sessionOk, now, cfg, hash)
      ensures OtpKeysWellFormed(old(store)) && AnswerCodes(answer) ==> resp.status != 200
    {
      var pre := VerifyPrecheck(store, data, cookie, hash);
      if pre.Err? {
        return if pre.error.Reply? then pre.error.resp else Uncaught;
      }
      var ch := pre.value;
      var rateKey := AttemptsKey(hash(ch.token));
      if rateKey in store && !store[rateKey].Count? {
        return Uncaught;
      }
      var attempts := if rateKey in store then store[rateKey].n + 1 else 1;
      store := store[rateKey := Count(attempts)];
      resp := AfterCount(ch, attempts, data, answer, parseTime, sessionOk, now, cfg, hash);
      ghost var outcome := VerifyResult(old(store), old(users), data, cookie, answer, parseTime, sessionOk, now, cfg, hash);
      assert Outcome(store, users, resp) == outcome;
      if OtpKeysWellFormed(old(store)) && AnswerCodes(answer) {
        VerifyAsWrittenNeverSucceeds(old(store), old(users), data, cookie, answer, parseTime, sessionOk, now, cfg, hash);
      }
    }

    /** Verify from the rate limit on, reading the code from `verification_code` as the view does. */
    method AfterCount(ch: Checked, attempts: int, data: map<string, Value>, answer: Result<AuthUtils.Answer, AuthUtils.AnswerError>,
                      parseTime: Value -> Option<int>, sessionOk: bool, now: int, cfg: Settings, hash: string -> string)
      returns (resp: Response)
      modifies this
      ensures Outcome(store, users, resp) == VerifyCounted(CodeFieldAsWritten, old(store), attempts, old(users), ch, data, answer, parseTime, sessionOk, now, cfg, hash)
    {
      if attempts > cfg.tokenRateLimit {
        return Fail(429, "Too many verification attempts");
      }
      if answer.Err? {
        return AnswerFailure(answer.error);
      }
      var latest := AnswerDict(answer.value);
      if PyStr(Get(latest, "id")) != PyStr(Get(data, "answer_id")) {
        return Fail(403, "Answer ID mismatch");
      }
      var otpKey := SubmittedOtpKey(latest, CodeFieldAsWritten);
      var raw := if otpKey in store then Some(store[otpKey]) else None;
      store := store - {otpKey};
      var check := OtpCheck(raw, ch.token, Get(latest, "submitted_at"), parseTime, cfg.otpTimeOut);
      if check.Err? {
        return check.error;
      }
      resp := Finish(ch, data, sessionOk, now, cfg, hash);
    }

    /** The successful end of verify: the state marked verified, the counter cleared, a login signed in. */
    method Finish(ch: Checked, data: map<string, Value>, sessionOk: bool, now: int, cfg: Settings, hash: string -> string)
      returns (resp: Response)
      modifies this
      ensures Outcome(store, users, resp) == VerifyFinish(old(store), old(users), ch, data, sessionOk, now, cfg, hash)
    {
      var stateKey := StateKey(hash(ch.token));
      store := store[stateKey := VerifiedRecord(ch.fields, Get(data, "account"))];
      store := store - {AttemptsKey(hash(ch.token))};
      var expiresAt := Int(now + cfg.tempTokenTimeout);
      if Get(data, "action") == Str(AuthUtils.Login) {
        var session := CreateUserSession(users, Get(data, "account"), cfg.emailDomain, sessionOk);
        if session.Err? {
          return session.error;
        }
        var name := session.value.1;
        users := session.value.0;
        if !users[name].active {
          return Fail(403, "User account is inactive");
        }
        store := store - {stateKey};
        return Response(200, map["action" := Get(data, "action"), "expires_at" := expiresAt, "is_logged_in" := Bool(true)], DeleteCookie);
      }
      resp := Response(200, map["action" := Get(data, "action"), "expires_at" := expiresAt, "is_logged_in" := Bool(false)], KeepCookie);
    }

    /** `auth_signup_api`. */
    method Signup(data: map<string, Value>, cookie: Option<string>, sessionOk: bool, cfg: Settings,
                  frameworkErrors: string -> seq<string>, hash: string -> string) returns (resp: Response)
      modifies this
      ensures Outcome(store, users, resp) == SignupResult(old(store), old(users), data, cookie, sessionOk, cfg, frameworkErrors, hash)
    {
      var check := PsdCheck(store, data, cookie, AuthUtils.Signup, cfg, frameworkErrors, hash);
      if check.Err? {
        return if check.error.Reply? then check.error.resp else Fail(500, "Failed to complete signup");
      }
      var g := check.value;
      var session := CreateUserSession(users, g.account, cfg.emailDomain, sessionOk);
      if session.Err? {
        return session.error;
      }
      var name := session.value.1;
      users := session.value.0;
      if users[name].password.Some? {
        return Fail(409, "User already exists with password.");
      }
      users := users[name := users[name].(active := true, password := Some(g.password))];
      store := store - {g.stateKey};
      resp := Done(name);
    }

    /** `auth_reset_password_api`. */
    method ResetPassword(data: map<string, Value>, cookie: Option<string>, cfg: Settings,
                         frameworkErrors: string -> seq<string>, hash: string -> string) returns (resp: Response)
      modifies this
      ensures Outcome(store, users, resp) == ResetResult(old(store), old(users), data, cookie, cfg, frameworkErrors, hash)
    {
      var check := PsdCheck(store, data, cookie, AuthUtils.ResetPassword, cfg, frameworkErrors, hash);
      if check.Err? {
        return if check.error.Reply? then check.error.resp else Fail(500, "Failed to reset password");
      }
      var g := check.value;
      var name := PyStr(g.account);
      if name !in users {
        return Fail(404, "User does not exist");
      }
      users := users[name := users[name].(password := Some(g.password))];
      store := store - {g.stateKey};
      resp := Done(name);
    }
  }
}
