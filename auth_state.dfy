/**
 * The front end's record of a finished questionnaire verification (`utils/auth.js`):
 * where it is read from, in which order, how it is saved and cleared, and when it
 * counts as valid for an action.
 */
module AuthState {
  import opened Wrappers
  import opened Strs
  import opened Values

  /** The contents of `localStorage` or `sessionStorage`. */
  type Storage = map<string, string>

  /** `URLSearchParams` of the page address: the first value of each name. */
  type UrlParams = map<string, string>

  /** An auth-state object: its keys and JSON values. */
  type AuthObject = map<string, Value>

  /** What `JSON.stringify`/`JSON.parse` guarantee here: a value reads back and its text is never empty. */
  ghost predicate JsonCodec(stringify: Value -> string, parse: string -> Option<Value>)
  {
    forall v :: parse(stringify(v)) == Some(v) && stringify(v) != ""
  }

  /** The five places `getAuthState` looks, in order. */
  datatype Source = UrlParamsSource | UrlSource | LocalStorage | SessionStorage | SessionStorageBackup

  /** The `source` tag each place puts on the state it returns. */
  function Tag(s: Source): string
  {
    match s
    case UrlParamsSource => "url_params"
    case UrlSource => "url"
    case LocalStorage => "localStorage"
    case SessionStorage => "sessionStorage"
    case SessionStorageBackup => "sessionStorage_backup"
  }

  /** `params.get(name)`: the value, or null. */
  function Param(url: UrlParams, name: string): Value
  {
    if name in url then Str(url[name]) else Null
  }

  predicate Is(m: map<string, string>, key: string, value: string)
  {
    key in m && m[key] == value
  }

  /** `getItem(key)` or `params.get(key)` is truthy: present and non-empty. */
  predicate Given(m: map<string, string>, key: string)
  {
    key in m && m[key] != ""
  }

  /** The first place, in `getAuthState`'s order, whose condition holds. */
  function Branch(url: UrlParams, local: Storage, session: Storage): Option<Source>
  {
    if Is(url, "verified", "true") && Is(url, "from_callback", "true") then Some(UrlParamsSource)
    else if Is(url, "verified", "true") && Given(url, "account") && Given(url, "action") then Some(UrlSource)
    else if Given(local, "auth_flow") then Some(LocalStorage)
    else if Given(session, "auth_flow") then Some(SessionStorage)
    else if Given(session, "auth_verification_data") then Some(SessionStorageBackup)
    else None
  }

  /** `{ ...parsed }` for a parsed object. */
  function Spread(v: Value): AuthObject
  {
    match v
    case Dict(m) => m
    case _ => map[]
  }

  /** `{ ...JSON.parse(text), source: tag }`; a parse error is caught and gives null. */
  function Tagged(text: string, parse: string -> Option<Value>, source: Source): Option<AuthObject>
  {
    match parse(text)
    case None => None
    case Some(v) => Some(Spread(v)["source" := Str(Tag(source))])
  }

  /** The state built from a callback URL, stamped with `verified_at`. */
  function CallbackState(url: UrlParams, nowIso: string): AuthObject
  {
    map["status" := Str("verified"), "action" := Param(url, "action"), "account" := Param(url, "account"),
        "expires_at" := Param(url, "expires_at"), "verified_at" := Str(nowIso), "source" := Str(Tag(UrlParamsSource))]
  }

  /** The state built from a plain verified URL carrying account and action. */
  function UrlState(url: UrlParams): AuthObject
    requires "account" in url && "action" in url
  {
    map["status" := Str("verified"), "action" := Str(url["action"]), "account" := Str(url["account"]),
        "expires_at" := Param(url, "expires_at"), "source" := Str(Tag(UrlSource))]
  }

  /**
   * `getAuthState()` at ISO time `nowIso`: the state from the first place whose condition
   * holds, tagged with that place's name; null when no place holds or its text fails to parse.
   */
  function GetAuthState(url: UrlParams, local: Storage, session: Storage, parse: string -> Option<Value>, nowIso: string): (r: Option<AuthObject>)
    ensures r.Some? ==> Branch(url, local, session).Some?
    ensures r.Some? ==> "source" in r.value && r.value["source"] == Str(Tag(Branch(url, local, session).value))
  {
    match Branch(url, local, session)
    case None => None
    case Some(UrlParamsSource) => Some(CallbackState(url, nowIso))
    case Some(UrlSource) => Some(UrlState(url))
    case Some(LocalStorage) => Tagged(local["auth_flow"], parse, LocalStorage)
    case Some(SessionStorage) => Tagged(session["auth_flow"], parse, SessionStorage)
    case Some(SessionStorageBackup) => Tagged(session["auth_verification_data"], parse, SessionStorageBackup)
  }

  /**
   * Null comes back exactly when no place holds, or when the stored text of the place
   * that holds does not parse: a bad entry hides every place after it.
   */
  lemma GetAuthStateNull(url: UrlParams, local: Storage, session: Storage, parse: string -> Option<Value>, nowIso: string)
    ensures GetAuthState(url, local, session, parse, nowIso).None? <==>
      match Branch(url, local, session)
      case None => true
      case Some(UrlParamsSource) => false
      case Some(UrlSource) => false
      case Some(LocalStorage) => parse(local["auth_flow"]).None?
      case Some(SessionStorage) => parse(session["auth_flow"]).None?
      case Some(SessionStorageBackup) => parse(session["auth_verification_data"]).None?
  {
  }

  /** What `saveAuthState` writes: the state without its `source`, as JSON. */
  function SavedText(state: AuthObject, stringify: Value -> string): string
  {
    stringify(Dict(state - {"source"}))
  }

  /** The keys `clearAuthState` removes from each storage. */
  const LocalAuthKeys := {"auth_flow", "auth_otp", "auth_redirect_time", "authState"}
  const SessionAuthKeys := {"auth_flow", "auth_verification_data"}

  /**
   * A saved state reads back as itself, tagged with the storage it is found in, as long
   * as the URL does not claim a verification and, for a non-persistent save, no
   * persistent state is stored.
   */
  lemma SaveThenGet(url: UrlParams, local: Storage, session: Storage, state: AuthObject, persistent: bool,
                    stringify: Value -> string, parse: string -> Option<Value>, nowIso: string)
    requires JsonCodec(stringify, parse)
    requires !Is(url, "verified", "true")
    requires persistent || !Given(local, "auth_flow")
    ensures var text := SavedText(state, stringify);
      var local' := if persistent then local["auth_flow" := text] else local;
      GetAuthState(url, local', session["auth_flow" := text], parse, nowIso)
        == Some(state["source" := Str(if persistent then "localStorage" else "sessionStorage")])
  {
    var saved := state - {"source"};
    var text := SavedText(state, stringify);
    assert parse(text) == Some(Dict(saved));
    assert saved["source" := Str("localStorage")] == state["source" := Str("localStorage")];
    assert saved["source" := Str("sessionStorage")] == state["source" := Str("sessionStorage")];
  }

  /** After clearing, only a verified URL can bring a state back. */
  lemma ClearThenGet(url: UrlParams, local: Storage, session: Storage, parse: string -> Option<Value>, nowIso: string)
    requires !Is(url, "verified", "true")
    ensures GetAuthState(url, local - LocalAuthKeys, session - SessionAuthKeys, parse, nowIso) == None
  {
  }

  /** JavaScript's ToBoolean on a JSON value: null, false, 0 and "" are falsy; every array and object is truthy. */
  predicate JsTruthy(v: Value)
  {
    match v
    case Null => false
    case Bool(b) => b
    case Int(i) => i != 0
    case Str(s) => s != ""
    case List(_) => true
    case Dict(_) => true
  }

  /**
   * JavaScript's `String(v)` on a JSON value: an array joins its elements with ",",
   * a null element printing as nothing; an object prints as "[object Object]".
   */
  function JsString(v: Value): string
    decreases v
  {
    match v
    case Null => "null"
    case Bool(b) => if b then "true" else "false"
    case Int(i) => IntToString(i)
    case Str(s) => s
    case List(items) => Join(seq(|items|, k requires 0 <= k < |items| => if items[k].Null? then "" else JsString(items[k])), ",")
    case Dict(_) => "[object Object]"
  }

  /** `parseInt(state.expires_at)`: the value converted to a string, then read with no radix. */
  function ExpiryTime(v: Value): (r: JsNumber)
    ensures v.Int? ==> r == Num(v.i)
  {
    if v.Int? then JsParseIntNoRadixOfIntToString(v.i); JsParseIntNoRadix(JsString(v))
    else JsParseIntNoRadix(JsString(v))
  }

  /** The checks `isAuthStateValid` makes on a state at time `now` (milliseconds). */
  predicate ValidFor(state: AuthObject, action: string, now: int)
  {
    Get(state, "action") == Str(action) && Get(state, "status") == Str("verified")
    && (!JsTruthy(Get(state, "expires_at")) || (ExpiryTime(Get(state, "expires_at")).Num? && now < ExpiryTime(Get(state, "expires_at")).n))
  }

  /**
   * An empty array or an empty object as expiry is truthy in JavaScript and reads as
   * NaN (`String([])` is "", `String({})` is "[object Object]"), so the state is invalid.
   */
  lemma EmptyContainerExpiryInvalid(state: AuthObject, action: string, now: int)
    requires Get(state, "expires_at") == List([]) || Get(state, "expires_at") == Dict(map[])
    ensures !ValidFor(state, action, now)
  {
    var e := Get(state, "expires_at");
    if e.List? {
      assert JsString(e) == "";
    } else {
      var s := JsString(e);
      assert s[0] == '[' && !IsJsSpace(s[0]);
      TrimLeftNone(s, IsJsSpace);
      assert DigitPrefix(s) == "";
    }
  }

  /** A one-element array `[n]` reads as `n`, as `parseInt([5])` is 5. */
  lemma SingletonExpiry(n: int)
    ensures ExpiryTime(List([Int(n)])) == Num(n)
  {
    var items := [Int(n)];
    assert seq(|items|, k requires 0 <= k < |items| => if items[k].Null? then "" else JsString(items[k])) == [IntToString(n)];
    JsParseIntNoRadixOfIntToString(n);
  }

  /** A hexadecimal expiry text `0x…` is read in base 16: the state is valid until that time. */
  lemma HexExpiryValid(state: AuthObject, action: string, now: int, digits: string)
    requires AllHexDigits(digits) && digits != ""
    requires Get(state, "action") == Str(action) && Get(state, "status") == Str("verified")
    requires Get(state, "expires_at") == Str("0x" + digits)
    ensures ValidFor(state, action, now) <==> now < HexValue(digits)
  {
    JsParseIntNoRadixHex(digits);
  }

  /**
   * `isAuthStateValid(action)`: a state exists, its action is `action`, its status is
   * verified, and it has no expiry or `now` is before it.
   */
  function IsAuthStateValid(action: string, url: UrlParams, local: Storage, session: Storage,
                            parse: string -> Option<Value>, nowIso: string, now: int): (r: bool)
    ensures r <==> exists state :: GetAuthState(url, local, session, parse, nowIso) == Some(state) && ValidFor(state, action, now)
  {
    match GetAuthState(url, local, session, parse, nowIso)
    case None => false
    case Some(state) => ValidFor(state, action, now)
  }

  /** A verified state for `action` saved without an expiry is valid for that action and no other. */
  lemma ValidAfterSave(url: UrlParams, local: Storage, session: Storage, state: AuthObject, persistent: bool,
                       stringify: Value -> string, parse: string -> Option<Value>, nowIso: string, now: int, action: string, other: string)
    requires JsonCodec(stringify, parse)
    requires !Is(url, "verified", "true")
    requires persistent || !Given(local, "auth_flow")
    requires Get(state, "action") == Str(action) && Get(state, "status") == Str("verified") && "expires_at" !in state
    requires other != action
    ensures var text := SavedText(state, stringify);
      var local' := if persistent then local["auth_flow" := text] else local;
      var session' := session["auth_flow" := text];
      IsAuthStateValid(action, url, local', session', parse, nowIso, now)
      && !IsAuthStateValid(other, url, local', session', parse, nowIso, now)
  {
    SaveThenGet(url, local, session, state, persistent, stringify, parse, nowIso);
  }

  /** A URL-borne state whose expiry has passed is not valid. */
  lemma ExpiredUrlStateInvalid(url: UrlParams, local: Storage, session: Storage, parse: string -> Option<Value>,
                               nowIso: string, now: int, action: string, expiry: int)
    requires Is(url, "verified", "true") && Is(url, "from_callback", "true")
    requires Is(url, "expires_at", IntToString(expiry)) && expiry <= now
    ensures !IsAuthStateValid(action, url, local, session, parse, nowIso, now)
  {
    var state := CallbackState(url, nowIso);
    assert GetAuthState(url, local, session, parse, nowIso) == Some(state);
    assert Get(state, "expires_at") == Str(IntToString(expiry));
    ExpiredInvalid(state, action, now, expiry);
  }

  /** A state whose expiry, written as text, is not after `now` is not valid. */
  lemma ExpiredInvalid(state: AuthObject, action: string, now: int, expiry: int)
    requires Get(state, "expires_at") == Str(IntToString(expiry)) && expiry <= now
    ensures !ValidFor(state, action, now)
  {
    JsParseIntNoRadixOfIntToString(expiry);
  }

  /** The browser's two storages. */
  class BrowserStorage {
    var local: Storage
    var session: Storage

    constructor(local: Storage, session: Storage)
      ensures this.local == local && this.session == session
    {
      this.local := local;
      this.session := session;
    }

    /** `saveAuthState(state, persistent)`: always into sessionStorage, into localStorage when persistent. */
    method SaveAuthState(state: AuthObject, persistent: bool, stringify: Value -> string)
      modifies this
      ensures session == old(session)["auth_flow" := SavedText(state, stringify)]
      ensures local == if persistent then old(local)["auth_flow" := SavedText(state, stringify)] else old(local)
    {
      var stateToSave := state - {"source"};
      var stateString := stringify(Dict(stateToSave));
      if persistent {
        local := local["auth_flow" := stateString];
      }
      session := session["auth_flow" := stateString];
    }

    /** `clearAuthState()`: removes the four localStorage keys and the two sessionStorage keys. */
    method ClearAuthState()
      modifies this
      ensures local == old(local) - LocalAuthKeys && session == old(session) - SessionAuthKeys
    {
      local := local - {"auth_flow"};
      local := local - {"auth_otp"};
      local := local - {"auth_redirect_time"};
      local := local - {"authState"};
      session := session - {"auth_flow"};
      session := session - {"auth_verification_data"};
    }
  }
}
