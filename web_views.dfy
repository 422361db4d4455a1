/**
 * The request logic of the course views: list sorting, filtering and paging, the search
 * guard, the prior-course window, the anonymous session ids kept across login and
 * logout, the course vote endpoint and the grouping of grade medians.
 */
module WebViews {
  import opened Wrappers
  import opened Ids
  import opened Strs
  import opened Values
  import opened Seqs
  import opened Sorting
  import opened Terms
  import opened Ratings
  import opened Reviews
  import opened Courses

  type Params = map<string, string>

  function Param(params: Params, key: string): Option<string>
  {
    if key in params then Some(params[key]) else None
  }

  const CourseCode: string := "course_code"
  const NumReviews: string := "num_reviews"
  const QualityScore: string := "quality_score"
  const DifficultyScore: string := "difficulty_score"

  /** The fields a listing may be sorted by: the two score fields only for signed-in users. */
  function AllowedSortFields(authenticated: bool): seq<string>
  {
    [CourseCode, NumReviews] + (if authenticated then [QualityScore, DifficultyScore] else [])
  }

  /** The requested sort field when it is allowed, else `course_code`. */
  function SortField(params: Params, authenticated: bool): (f: string)
    ensures f in AllowedSortFields(authenticated)
    ensures f == CourseCode || ("sort_by" in params && f == params["sort_by"])
    ensures "sort_by" in params && params["sort_by"] in AllowedSortFields(authenticated) ==> f == params["sort_by"]
  {
    var sortBy := if "sort_by" in params then params["sort_by"] else CourseCode;
    if sortBy in AllowedSortFields(authenticated) then sortBy else CourseCode
  }

  /** The order is descending iff `sort_order`, lower-cased, is "desc" (default "asc"). */
  function Descending(params: Params): bool
  {
    "sort_order" in params && Lower(params["sort_order"]) == "desc"
  }

  /** The `order_by` argument of the listing. */
  function OrderBy(params: Params, authenticated: bool): string
  {
    (if Descending(params) then "-" else "") + SortField(params, authenticated)
  }

  /** The `order_by` argument is the sort field, with a "-" exactly when descending. */
  lemma OrderByParts(params: Params, authenticated: bool)
    ensures var o := OrderBy(params, authenticated);
      (|o| > 0 && o[0] == '-' <==> Descending(params))
      && o[if Descending(params) then 1 else 0..] == SortField(params, authenticated)
  {
    var f := SortField(params, authenticated);
    assert f[0] != '-';
  }

  /** Signed-out users are never sorted by a score, whatever they ask for. */
  lemma AnonymousSortIgnoresScores(params: Params)
    ensures SortField(params, false) == CourseCode || SortField(params, false) == NumReviews
  {
  }

  /** The filters applied to the listing. */
  datatype CourseFilter = CourseFilter(department: Option<string>, code: Option<string>, minQuality: Option<int>, minDifficulty: Option<int>)

  /** A minimum-score parameter: only for signed-in users, only when set, and ignored unless `int` accepts it. */
  function IntFilter(params: Params, key: string, authenticated: bool): (r: Option<int>)
    ensures r.Some? <==> authenticated && key in params && params[key] != "" && PyInt(params[key]).Some?
    ensures r.Some? ==> r == PyInt(params[key])
  {
    if authenticated && key in params && params[key] != "" then PyInt(params[key]) else None
  }

  /** A text parameter is applied only when it is non-empty. */
  function TextFilter(params: Params, key: string): (r: Option<string>)
    ensures r.Some? <==> key in params && params[key] != ""
    ensures r.Some? ==> r.value == params[key]
  {
    if key in params && params[key] != "" then Some(params[key]) else None
  }

  function ResolveFilters(params: Params, authenticated: bool): CourseFilter
  {
    CourseFilter(TextFilter(params, "department"), TextFilter(params, "code"),
      IntFilter(params, "min_quality", authenticated), IntFilter(params, "min_difficulty", authenticated))
  }

  /** A course as the listing sees it: its code, department and the two scores. */
  datatype Listing = Listing(courseCode: string, department: string, quality: Mean, difficulty: Mean)

  /** `score__gte=bound` for a score kept as a mean (0 when there are no votes). */
  predicate MeanAtLeast(m: Mean, bound: int)
  {
    if m.count == 0 then 0 >= bound else m.total >= bound * m.count
  }

  predicate Admits(f: CourseFilter, c: Listing)
  {
    (f.department.None? || IExact(c.department, f.department.value))
    && (f.code.None? || IContains(c.courseCode, f.code.value))
    && (f.minQuality.None? || MeanAtLeast(c.quality, f.minQuality.value))
    && (f.minDifficulty.None? || MeanAtLeast(c.difficulty, f.minDifficulty.value))
  }

  /** For signed-out users the scores never decide whether a course is listed. */
  lemma AnonymousFilterIgnoresScores(params: Params, c: Listing, quality: Mean, difficulty: Mean)
    ensures Admits(ResolveFilters(params, false), c) == Admits(ResolveFilters(params, false), c.(quality := quality, difficulty := difficulty))
  {
  }

  /** Django's page count: at least one page, even for an empty listing. */
  function NumPages(count: nat, perPage: nat): (n: nat)
    requires perPage > 0
    ensures n >= 1 && (n - 1) * perPage <= count && (count == 0 || count <= n * perPage)
  {
    if count == 0 then 1
    else
      var n := (count + perPage - 1) / perPage;
      DivBounds(count, perPage);
      n
  }

  lemma DivBounds(count: nat, perPage: nat)
    requires perPage > 0 && count > 0
    ensures var n := (count + perPage - 1) / perPage; n >= 1 && (n - 1) * perPage < count && count <= n * perPage
  {
    var n := (count + perPage - 1) / perPage;
    var q := count + perPage - 1;
    assert q == n * perPage + q % perPage;
    assert (n - 1) * perPage == n * perPage - perPage;
  }

  /**
   * The page shown: the `page` parameter (default 1) when it is an integer between 1 and
   * the number of pages, else page 1.
   */
  function ResolvePage(params: Params, count: nat, perPage: nat): (p: nat)
    requires perPage > 0
    ensures 1 <= p <= NumPages(count, perPage)
    ensures "page" in params && PyInt(params["page"]).Some? && 1 <= PyInt(params["page"]).value <= NumPages(count, perPage)
      ==> p == PyInt(params["page"]).value
    ensures !("page" in params && PyInt(params["page"]).Some? && 1 <= PyInt(params["page"]).value <= NumPages(count, perPage))
      ==> p == 1
  {
    if "page" in params then
      match PyInt(params["page"])
      case Some(n) => if 1 <= n <= NumPages(count, perPage) then n else 1
      case None => 1
    else 1
  }

  lemma PageBounds(page: nat, count: nat, perPage: nat)
    requires perPage > 0 && 1 <= page <= NumPages(count, perPage)
    ensures (page - 1) * perPage <= count
    ensures page < NumPages(count, perPage) ==> (page - 1) * perPage + perPage <= count
  {
    var n := NumPages(count, perPage);
    MulMonotone(page - 1, n - 1, perPage);
    if page < n {
      MulMonotone(page, n - 1, perPage);
    }
  }

  /** The listing items on a page. */
  function PageItems<T>(items: seq<T>, page: nat, perPage: nat): (r: seq<T>)
    requires perPage > 0 && 1 <= page <= NumPages(|items|, perPage)
    ensures |r| <= perPage && (page - 1) * perPage + |r| <= |items|
    ensures forall k :: 0 <= k < |r| ==> r[k] == items[(page - 1) * perPage + k]
    ensures page < NumPages(|items|, perPage) ==> |r| == perPage
  {
    PageBounds(page, |items|, perPage);
    var start := (page - 1) * perPage;
    var stop := start + perPage;
    var end := if stop <= |items| then stop else |items|;
    items[start..end]
  }

  lemma MulMonotone(a: nat, b: nat, c: nat)
    requires a <= b
    ensures a * c <= b * c
  {
  }

  lemma DivOne(a: nat, b: nat)
    requires 0 < b <= a < 2 * b
    ensures a / b == 1
  {
  }

  /** Only the first page is shown for a listing that fits on one page, whatever was asked. */
  lemma SinglePageListing<T>(params: Params, items: seq<T>, perPage: nat)
    requires perPage > 0 && |items| <= perPage
    ensures ResolvePage(params, |items|, perPage) == 1
    ensures PageItems(items, 1, perPage) == items
  {
    if |items| > 0 {
      DivOne(|items| + perPage - 1, perPage);
    }
  }

  /** The number of reviews of a course. */
  function ReviewCount(reviews: seq<Review>, course: CourseId): nat
  {
    |Filter(reviews, (r: Review) => r.course == course)|
  }

  function ByReviewCount(reviews: seq<Review>): Course -> int
  {
    (c: Course) => ReviewCount(reviews, c.id)
  }

  /**
   * `course_search_api`: a stripped query shorter than two characters returns no courses;
   * otherwise the search results, ordered by descending review count unless the query
   * has the length of a department code.
   */
  function CourseSearchApi(courses: seq<Course>, reviews: seq<Review>, q: string): (r: Result<seq<Course>, SearchError>)
    ensures |PyStrip(q)| < 2 ==> r == Ok([])
  {
    var query := PyStrip(q);
    if |query| < 2 then Ok([])
    else Reordered(RunSearch(courses, query), reviews, !(2 <= |query| <= 4))
  }

  /** A search outcome, its courses sorted by review count when `byCount` holds. */
  function Reordered(found: Result<seq<Course>, SearchError>, reviews: seq<Review>, byCount: bool): (r: Result<seq<Course>, SearchError>)
  {
    match found
    case Err(e) => Err(e)
    case Ok(cs) => if byCount then Ok(SortDesc(cs, ByReviewCount(reviews))) else Ok(cs)
  }

  /** Reordering keeps the outcome and the courses, and sorts them when asked to. */
  lemma ReorderedSame(found: Result<seq<Course>, SearchError>, reviews: seq<Review>, byCount: bool)
    ensures Reordered(found, reviews, byCount).Ok? <==> found.Ok?
    ensures found.Err? ==> Reordered(found, reviews, byCount) == found
    ensures found.Ok? ==> multiset(Reordered(found, reviews, byCount).value) == multiset(found.value)
    ensures found.Ok? && byCount ==> SortedDesc(Reordered(found, reviews, byCount).value, ByReviewCount(reviews))
  {
    if found.Ok? {
      SortDescSorted(found.value, ByReviewCount(reviews));
    }
  }

  /** The search results are a reordering of the search's own, by review count for long queries. */
  lemma CourseSearchApiOrder(courses: seq<Course>, reviews: seq<Review>, q: string)
    requires |PyStrip(q)| >= 2
    ensures CourseSearchApi(courses, reviews, q).Ok? <==> RunSearch(courses, PyStrip(q)).Ok?
    ensures CourseSearchApi(courses, reviews, q).Ok? ==>
      multiset(CourseSearchApi(courses, reviews, q).value) == multiset(RunSearch(courses, PyStrip(q)).value)
    ensures CourseSearchApi(courses, reviews, q).Ok? && |PyStrip(q)| > 4 ==>
      SortedDesc(CourseSearchApi(courses, reviews, q).value, ByReviewCount(reviews))
  {
    var query := PyStrip(q);
    var found := RunSearch(courses, query);
    assert CourseSearchApi(courses, reviews, q) == Reordered(found, reviews, !(2 <= |query| <= 4));
    ReorderedSame(found, reviews, !(2 <= |query| <= 4));
  }

  /** How long a previously viewed course counts as the prior course, in seconds. */
  const PriorCourseWindow: int := 10 * 60

  /** The prior course: the stored id, if it was stored no more than ten minutes before `now`. */
  function PriorCourse(storedId: Option<CourseId>, storedAt: Option<int>, now: int): (r: Option<CourseId>)
    ensures r.Some? <==> storedId.Some? && storedAt.Some? && storedAt.value + PriorCourseWindow >= now
    ensures r.Some? ==> r == storedId
  {
    if storedId.Some? && storedAt.Some? && storedAt.value + PriorCourseWindow >= now then storedId else None
  }

  /** The session of a browser: the keys these views read and write. */
  class Session {
    var priorCourseId: Option<CourseId>
    var priorCourseTimestamp: Option<int>
    var userId: Option<string>

    constructor()
      ensures priorCourseId.None? && priorCourseTimestamp.None? && userId.None?
    {
      priorCourseId, priorCourseTimestamp, userId := None, None, None;
    }

    /** `get_prior_course_id`: reports the prior course and always records the current one and the time. */
    method GetPriorCourseId(current: CourseId, now: int) returns (prior: Option<CourseId>)
      modifies this
      ensures prior == PriorCourse(old(priorCourseId), old(priorCourseTimestamp), now)
      ensures priorCourseId == Some(current) && priorCourseTimestamp == Some(now) && userId == old(userId)
    {
      prior := None;
      if priorCourseId.Some? && priorCourseTimestamp.Some? {
        if priorCourseTimestamp.value + PriorCourseWindow >= now {
          prior := priorCourseId;
        }
      }
      priorCourseId := Some(current);
      priorCourseTimestamp := Some(now);
    }
  }

  /** Visiting a second course within ten minutes of the first reports the first. */
  lemma SecondVisitSeesFirst(first: CourseId, t1: int, t2: int)
    requires t1 <= t2 <= t1 + PriorCourseWindow
    ensures PriorCourse(Some(first), Some(t1), t2) == Some(first)
  {
  }

  /** A visit more than ten minutes later reports no prior course. */
  lemma LateVisitSeesNothing(first: CourseId, t1: int, t2: int)
    requires t2 > t1 + PriorCourseWindow
    ensures PriorCourse(Some(first), Some(t1), t2) == None
  {
  }

  /** `list.remove(x)`: the first occurrence of `x` removed. */
  function RemoveFirst(s: seq<string>, x: string): (r: seq<string>)
    ensures x in s ==> multiset(r) == multiset(s) - multiset{x} && |r| == |s| - 1
    ensures x !in s ==> r == s
    decreases |s|
  {
    if |s| == 0 then []
    else if s[0] == x then
      assert s == [s[0]] + s[1..];
      s[1..]
    else
      assert s == [s[0]] + s[1..];
      [s[0]] + RemoveFirst(s[1..], x)
  }

  lemma {:induction false} RemoveFirstOfAppended(s: seq<string>, x: string)
    requires x !in s
    ensures RemoveFirst(s + [x], x) == s
    decreases |s|
  {
    if |s| == 0 {
    } else {
      assert (s + [x])[1..] == s[1..] + [x];
      RemoveFirstOfAppended(s[1..], x);
      assert s == [s[0]] + s[1..];
    }
  }

  /** The anonymous session ids recorded for each student. */
  type SessionIds = map<UserId, seq<string>>

  /** The record after a login from a session that had an anonymous id: the id appended, the student created if absent. */
  function LoggedIn(ids: SessionIds, user: UserId, sessionId: Option<string>): (r: SessionIds)
    ensures r.Keys == ids.Keys + (if sessionId.Some? then {user} else {})
    ensures sessionId.Some? ==> r[user] == (if user in ids then ids[user] else []) + [sessionId.value]
    ensures forall u :: u in ids && (u != user || sessionId.None?) ==> r[u] == ids[u]
  {
    if sessionId.None? then ids
    else ids[user := (if user in ids then ids[user] else []) + [sessionId.value]]
  }

  /** The record after a logout: the session's id removed from the student's list when present. */
  function LoggedOut(ids: SessionIds, user: UserId, sessionId: Option<string>): (r: SessionIds)
    ensures r.Keys == ids.Keys
    ensures user in ids && sessionId.Some? ==> r[user] == RemoveFirst(ids[user], sessionId.value)
    ensures forall u :: u in ids && (u != user || sessionId.None?) ==> r[u] == ids[u]
  {
    if user in ids && sessionId.Some? && sessionId.value in ids[user] then ids[user := RemoveFirst(ids[user], sessionId.value)]
    else ids
  }

  /** Logging out from the session one logged in with takes its id back off the student's list. */
  lemma LoginThenLogout(ids: SessionIds, user: UserId, sessionId: string)
    ensures user in ids ==> multiset(LoggedOut(LoggedIn(ids, user, Some(sessionId)), user, Some(sessionId))[user]) == multiset(ids[user])
    ensures user in ids && sessionId !in ids[user] ==> LoggedOut(LoggedIn(ids, user, Some(sessionId)), user, Some(sessionId)) == ids
  {
    if user in ids && sessionId !in ids[user] {
      RemoveFirstOfAppended(ids[user], sessionId);
      var after := LoggedOut(LoggedIn(ids, user, Some(sessionId)), user, Some(sessionId));
      assert after[user] == ids[user];
      assert after == ids;
    }
  }

  /** What `authenticate` returns for an account. */
  datatype Account = Account(id: UserId, username: string, isActive: bool)

  /** The username a login email stands for: its lower-cased part before the first "@". */
  function LoginUsername(email: string): string
  {
    SplitOn(Lower(email), "@")[0]
  }

  /** The students' anonymous session ids, which login and logout edit. */
  class StudentTable {
    var unauthSessionIds: SessionIds

    constructor(ids: SessionIds)
      ensures unauthSessionIds == ids
    {
      unauthSessionIds := ids;
    }

    /**
     * `auth_login_api`: 400 without an email or password, 401 when `authenticate` finds
     * no account, 403 for an inactive account; otherwise the session's anonymous id is
     * recorded for the student and the session id becomes the username.
     */
    method LoginApi(email: string, password: string, authenticate: (string, string) -> Option<Account>, session: Session)
        returns (status: int)
      modifies this, session
      ensures email == "" || password == "" ==> status == 400 && unchanged(this) && unchanged(session)
      ensures email != "" && password != "" && authenticate(LoginUsername(email), password).None? ==>
        status == 401 && unchanged(this) && unchanged(session)
      ensures (email != "" && password != "" && authenticate(LoginUsername(email), password).Some?
        && !authenticate(LoginUsername(email), password).value.isActive) ==>
        status == 403 && unchanged(this) && unchanged(session)
      ensures (email != "" && password != "" && authenticate(LoginUsername(email), password).Some?
        && authenticate(LoginUsername(email), password).value.isActive) ==>
        var account := authenticate(LoginUsername(email), password).value;
        status == 200
        && unauthSessionIds == LoggedIn(old(unauthSessionIds), account.id, old(session.userId))
        && session.userId == Some(account.username)
        && session.priorCourseId == old(session.priorCourseId) && session.priorCourseTimestamp == old(session.priorCourseTimestamp)
    {
      if email == "" || password == "" {
        return 400;
      }
      var account := authenticate(LoginUsername(email), password);
      if account.None? {
        return 401;
      }
      if !account.value.isActive {
        return 403;
      }
      if session.userId.Some? {
        var user := account.value.id;
        var recorded := if user in unauthSessionIds then unauthSessionIds[user] else [];
        unauthSessionIds := unauthSessionIds[user := recorded + [session.userId.value]];
      }
      session.userId := Some(account.value.username);
      return 200;
    }

    /**
     * `auth_login_api` as evidently intended: as `LoginApi`, but the session keeps its
     * anonymous id, so the logout of the same session finds the id the login recorded.
     */
    method LoginKeepingAnonymousId(email: string, password: string, authenticate: (string, string) -> Option<Account>, session: Session)
        returns (status: int)
      modifies this
      ensures email == "" || password == "" ==> status == 400 && unchanged(this)
      ensures email != "" && password != "" && authenticate(LoginUsername(email), password).None? ==>
        status == 401 && unchanged(this)
      ensures (email != "" && password != "" && authenticate(LoginUsername(email), password).Some?
        && !authenticate(LoginUsername(email), password).value.isActive) ==>
        status == 403 && unchanged(this)
      ensures (email != "" && password != "" && authenticate(LoginUsername(email), password).Some?
        && authenticate(LoginUsername(email), password).value.isActive) ==>
        status == 200
        && unauthSessionIds == LoggedIn(old(unauthSessionIds), authenticate(LoginUsername(email), password).value.id, session.userId)
    {
      if email == "" || password == "" {
        return 400;
      }
      var account := authenticate(LoginUsername(email), password);
      if account.None? {
        return 401;
      }
      if !account.value.isActive {
        return 403;
      }
      if session.userId.Some? {
        var user := account.value.id;
        var recorded := if user in unauthSessionIds then unauthSessionIds[user] else [];
        unauthSessionIds := unauthSessionIds[user := recorded + [session.userId.value]];
      }
      return 200;
    }

    /**
     * `auth_logout_api`: 400 when not signed in; otherwise the session's id is taken off
     * the student's list and the session is flushed.
     */
    method LogoutApi(user: Option<UserId>, session: Session) returns (status: int)
      modifies this, session
      ensures user.None? ==> status == 400 && unchanged(this) && unchanged(session)
      ensures user.Some? ==> (status == 200
        && unauthSessionIds == LoggedOut(old(unauthSessionIds), user.value, old(session.userId))
        && session.userId.None? && session.priorCourseId.None? && session.priorCourseTimestamp.None?)
    {
      if user.None? {
        return 400;
      }
      var u := user.value;
      if u in unauthSessionIds && session.userId.Some? {
        if session.userId.value in unauthSessionIds[u] {
          unauthSessionIds := unauthSessionIds[u := RemoveFirst(unauthSessionIds[u], session.userId.value)];
        }
      }
      session.userId, session.priorCourseId, session.priorCourseTimestamp := None, None, None;
      return 200;
    }
  }

  /**
   * As written, the logout after a login looks up the username the login stored in the
   * session, not the anonymous id it recorded, so that id stays on the student's list.
   */
  lemma LogoutKeepsAnonymousId(ids: SessionIds, account: Account, anonymousId: string)
    requires anonymousId != account.username
    ensures account.id in LoggedOut(LoggedIn(ids, account.id, Some(anonymousId)), account.id, Some(account.username))
    ensures anonymousId in LoggedOut(LoggedIn(ids, account.id, Some(anonymousId)), account.id, Some(account.username))[account.id]
  {
    var logged := LoggedIn(ids, account.id, Some(anonymousId));
    var list := logged[account.id];
    assert list[|list| - 1] == anonymousId;
    RemoveFirstKeeps(list, account.username, anonymousId);
  }

  /** Removing one value keeps every other value of the list. */
  lemma {:induction false} RemoveFirstKeeps(s: seq<string>, x: string, y: string)
    requires y in s && y != x
    ensures y in RemoveFirst(s, x)
    decreases |s|
  {
    if s[0] != y {
      RemoveFirstKeeps(s[1..], x, y);
    }
  }

  /** A login followed by a logout of the same session, as written: the anonymous id stays recorded. */
  method LoginThenLogoutAsWritten(t: StudentTable, session: Session, email: string, password: string,
                                  authenticate: (string, string) -> Option<Account>)
      returns (loginStatus: int, logoutStatus: int)
    requires email != "" && password != "" && authenticate(LoginUsername(email), password).Some?
    requires authenticate(LoginUsername(email), password).value.isActive
    requires session.userId.Some? && session.userId.value != authenticate(LoginUsername(email), password).value.username
    modifies t, session
    ensures loginStatus == 200 && logoutStatus == 200
    ensures var id := authenticate(LoginUsername(email), password).value.id;
      id in t.unauthSessionIds && old(session.userId).value in t.unauthSessionIds[id]
  {
    var account := authenticate(LoginUsername(email), password).value;
    var anonymousId := session.userId.value;
    ghost var ids := t.unauthSessionIds;
    loginStatus := t.LoginApi(email, password, authenticate, session);
    logoutStatus := t.LogoutApi(Some(account.id), session);
    LogoutKeepsAnonymousId(ids, account, anonymousId);
  }

  /** The intended reading: a login then a logout of the same session gives back the student's ids. */
  method LoginThenLogoutIntended(t: StudentTable, session: Session, email: string, password: string,
                                 authenticate: (string, string) -> Option<Account>)
      returns (loginStatus: int, logoutStatus: int)
    requires email != "" && password != "" && authenticate(LoginUsername(email), password).Some?
    requires authenticate(LoginUsername(email), password).value.isActive
    requires session.userId.Some?
    requires var id := authenticate(LoginUsername(email), password).value.id;
      id in t.unauthSessionIds && session.userId.value !in t.unauthSessionIds[id]
    modifies t, session
    ensures loginStatus == 200 && logoutStatus == 200
    ensures t.unauthSessionIds == old(t.unauthSessionIds)
  {
    var account := authenticate(LoginUsername(email), password).value;
    var anonymousId := session.userId.value;
    ghost var ids := t.unauthSessionIds;
    loginStatus := t.LoginKeepingAnonymousId(email, password, authenticate, session);
    logoutStatus := t.LogoutApi(Some(account.id), session);
    LoginThenLogout(ids, account.id, anonymousId);
  }

  /** Python's `int(v)` on a decoded JSON value; None where it raises. */
  function PyIntOfValue(v: Value): (r: Option<int>)
    ensures v.Int? ==> r == Some(v.i)
    ensures v.Str? ==> r == PyInt(v.s)
    ensures v.Null? || v.List? || v.Dict? ==> r.None?
  {
    match v
    case Int(i) => Some(i)
    case Bool(b) => Some(if b then 1 else 0)
    case Str(s) => PyInt(s)
    case _ => None
  }

  /** The vote category: difficulty when `forLayup` is truthy, else quality. */
  function VoteCategory(forLayup: Value): (c: string)
    ensures c == Difficulty <==> Truthy(forLayup)
    ensures c == Quality <==> !Truthy(forLayup)
  {
    if Truthy(forLayup) then Difficulty else Quality
  }

  /**
   * `course_vote_api` as written: 400 when `value` or `forLayup` is missing; otherwise the
   * vote is cast through `VoteManager.vote`, which saves the row and the stale score of
   * the voted category, and unpacking three results from the two it returns raises, so
   * the response is always a 500 with the vote and the score already saved.
   */
  method CourseVoteApi(t: VoteTable, data: map<string, Value>, course: CourseId, user: UserId) returns (status: int)
    requires t.Valid()
    modifies t
    ensures t.Valid()
    ensures ("value" !in data || "forLayup" !in data) ==> status == 400 && unchanged(t)
    ensures "value" in data && "forLayup" in data ==> status == 500
    ensures "value" in data && "forLayup" in data && PyIntOfValue(data["value"]).None? ==> unchanged(t)
    ensures "value" in data && "forLayup" in data && PyIntOfValue(data["value"]).Some? ==>
      var value := PyIntOfValue(data["value"]).value;
      var category := VoteCategory(data["forLayup"]);
      var stale := AverageScore(AfterGetOrCreate(old(t.rows), course, user, category), course, category);
      if ValidValue(value) && course in old(t.quality) then
        t.rows == ApplyVote(old(t.rows), course, user, category, NewValue(ExistingValue(old(t.rows), course, user, category), value).0)
        && (category == Quality ==> t.quality == old(t.quality)[course := stale] && t.difficulty == old(t.difficulty))
        && (category == Difficulty ==> t.difficulty == old(t.difficulty)[course := stale] && t.quality == old(t.quality))
      else unchanged(t)
  {
    if "value" !in data || "forLayup" !in data {
      return 400;
    }
    var value := PyIntOfValue(data["value"]);
    if value.None? {
      return 500;
    }
    var category := VoteCategory(data["forLayup"]);
    var _ := t.Vote(value.value, course, category, user);
    return 500;
  }

  /** A grade median of one section of a course in a term. */
  datatype MedianRow = MedianRow(term: string, median: string, enrollment: int, section: int)

  function OfTerm(term: string): MedianRow -> bool
  {
    (m: MedianRow) => m.term == term
  }

  type Groups = seq<(string, seq<MedianRow>)>

  /** The index of the group for `term`. */
  function FindGroup(groups: Groups, term: string): (i: Option<nat>)
    ensures i.Some? ==> i.value < |groups| && groups[i.value].0 == term
    ensures i.None? ==> forall k :: 0 <= k < |groups| ==> groups[k].0 != term
    decreases |groups|
  {
    if |groups| == 0 then None
    else if groups[|groups| - 1].0 == term then Some(|groups| - 1)
    else FindGroup(groups[..|groups| - 1], term)
  }

  /** One step of the grouping: the row appended to its term's group, or a new group opened. */
  function AddToGroup(groups: Groups, row: MedianRow): Groups
  {
    match FindGroup(groups, row.term)
    case Some(i) => groups[i := (row.term, groups[i].1 + [row])]
    case None => groups + [(row.term, [row])]
  }

  /** `medians_by_term`: the rows grouped by term, groups in order of first appearance. */
  function GroupByTerm(rows: seq<MedianRow>): Groups
    decreases |rows|
  {
    if |rows| == 0 then [] else AddToGroup(GroupByTerm(rows[..|rows| - 1]), rows[|rows| - 1])
  }

  /** Groups of distinct terms, each holding exactly the rows of its term in order, one per term present. */
  predicate Grouped(groups: Groups, rows: seq<MedianRow>)
  {
    (forall a, b :: 0 <= a < b < |groups| ==> groups[a].0 != groups[b].0)
    && (forall k :: 0 <= k < |groups| ==> groups[k].1 == Filter(rows, OfTerm(groups[k].0)) && |groups[k].1| > 0)
    && (forall r :: r in rows ==> exists k :: 0 <= k < |groups| && groups[k].0 == r.term)
  }

  lemma FilterOneRow(rows: seq<MedianRow>, row: MedianRow, t: string)
    ensures Filter(rows + [row], OfTerm(t)) == Filter(rows, OfTerm(t)) + (if row.term == t then [row] else [])
  {
    FilterAppend(rows, [row], OfTerm(t));
    assert [row][1..] == [];
  }

  lemma AddToExistingGroup(groups: Groups, rows: seq<MedianRow>, row: MedianRow, i: nat)
    requires Grouped(groups, rows)
    requires i < |groups| && groups[i].0 == row.term
    ensures Grouped(groups[i := (row.term, groups[i].1 + [row])], rows + [row])
  {
    var next := groups[i := (row.term, groups[i].1 + [row])];
    var rows' := rows + [row];
    forall k | 0 <= k < |next|
      ensures next[k].1 == Filter(rows', OfTerm(next[k].0)) && |next[k].1| > 0
    {
      FilterOneRow(rows, row, next[k].0);
      if k != i {
        assert next[k] == groups[k];
      }
    }
    forall r | r in rows'
      ensures exists k :: 0 <= k < |next| && next[k].0 == r.term
    {
      if r in rows {
        var k :| 0 <= k < |groups| && groups[k].0 == r.term;
        assert next[k].0 == r.term;
      } else {
        assert next[i].0 == r.term;
      }
    }
  }

  lemma AddNewGroup(groups: Groups, rows: seq<MedianRow>, row: MedianRow)
    requires Grouped(groups, rows)
    requires forall k :: 0 <= k < |groups| ==> groups[k].0 != row.term
    ensures Grouped(groups + [(row.term, [row])], rows + [row])
  {
    NewGroupFilters(groups, rows, row);
    NewGroupCovers(groups, rows, row);
  }

  /** A new group for an unseen term holds exactly that row, and the old groups gain nothing. */
  lemma NewGroupFilters(groups: Groups, rows: seq<MedianRow>, row: MedianRow)
    requires Grouped(groups, rows)
    requires forall k :: 0 <= k < |groups| ==> groups[k].0 != row.term
    ensures var next := groups + [(row.term, [row])];
      forall k :: 0 <= k < |next| ==> next[k].1 == Filter(rows + [row], OfTerm(next[k].0)) && |next[k].1| > 0
  {
    var next := groups + [(row.term, [row])];
    forall j | 0 <= j < |rows|
      ensures rows[j].term != row.term
    {
      assert rows[j] in rows;
      var k :| 0 <= k < |groups| && groups[k].0 == rows[j].term;
    }
    FilterEmpty(rows, OfTerm(row.term));
    forall k | 0 <= k < |next|
      ensures next[k].1 == Filter(rows + [row], OfTerm(next[k].0)) && |next[k].1| > 0
    {
      FilterOneRow(rows, row, next[k].0);
      if k < |groups| {
        assert next[k] == groups[k];
      }
    }
  }

  /** After adding a group for the new row's term, every row has a group. */
  lemma NewGroupCovers(groups: Groups, rows: seq<MedianRow>, row: MedianRow)
    requires forall r :: r in rows ==> exists k :: 0 <= k < |groups| && groups[k].0 == r.term
    ensures var next := groups + [(row.term, [row])];
      forall r :: r in rows + [row] ==> exists k :: 0 <= k < |next| && next[k].0 == r.term
  {
    var next := groups + [(row.term, [row])];
    forall r | r in rows + [row]
      ensures exists k :: 0 <= k < |next| && next[k].0 == r.term
    {
      if r in rows {
        var k :| 0 <= k < |groups| && groups[k].0 == r.term;
        assert next[k].0 == r.term;
      } else {
        assert next[|groups|].0 == r.term;
      }
    }
  }

  lemma AddToGroupKeeps(groups: Groups, rows: seq<MedianRow>, row: MedianRow)
    requires Grouped(groups, rows)
    ensures Grouped(AddToGroup(groups, row), rows + [row])
  {
    match FindGroup(groups, row.term)
    case Some(i) => AddToExistingGroup(groups, rows, row, i);
    case None => AddNewGroup(groups, rows, row);
  }

  /** The grouping puts each row in the one group of its term, keeping the rows' order. */
  lemma {:induction false} GroupByTermGroups(rows: seq<MedianRow>)
    ensures Grouped(GroupByTerm(rows), rows)
    decreases |rows|
  {
    if |rows| > 0 {
      var init, last := rows[..|rows| - 1], rows[|rows| - 1];
      GroupByTermGroups(init);
      AddToGroupKeeps(GroupByTerm(init), init, last);
      FrontLast(rows);
    }
  }

  /** The grouping loop of `medians`. */
  method GroupMedians(rows: seq<MedianRow>) returns (groups: Groups)
    ensures groups == GroupByTerm(rows)
  {
    groups := [];
    var i := 0;
    while i < |rows|
      invariant 0 <= i <= |rows|
      invariant groups == GroupByTerm(rows[..i])
    {
      assert rows[..i + 1][..i] == rows[..i];
      var found := FindGroup(groups, rows[i].term);
      if found.Some? {
        groups := groups[found.value := (rows[i].term, groups[found.value].1 + [rows[i]])];
      } else {
        groups := groups + [(rows[i].term, [rows[i]])];
      }
      i := i + 1;
    }
    assert rows[..i] == rows;
  }

  /** The first error the sort key raises on the groups, in order. */
  function FirstKeyError(groups: Groups): (e: Option<TermError>)
    ensures e.None? <==> forall k :: 0 <= k < |groups| ==> NumericValueOfTerm(groups[k].0).Ok?
    decreases |groups|
  {
    if |groups| == 0 then None
    else match NumericValueOfTerm(groups[0].0)
      case Err(e) => Some(e)
      case Ok(_) =>
        var rest := FirstKeyError(groups[1..]);
        assert forall k :: 1 <= k < |groups| ==> groups[k] == groups[1..][k - 1];
        rest
  }

  function TermKey(g: (string, seq<MedianRow>)): int
  {
    match NumericValueOfTerm(g.0)
    case Ok(v) => v
    case Err(_) => 0
  }

  /** The groups sorted by descending term value; a winter term makes `numeric_value_of_term` raise. */
  function SortMedians(groups: Groups): (r: Result<Groups, TermError>)
    ensures r.Err? <==> exists k :: 0 <= k < |groups| && NumericValueOfTerm(groups[k].0).Err?
    ensures r.Ok? ==> multiset(r.value) == multiset(groups)
  {
    match FirstKeyError(groups)
    case Some(e) => Err(e)
    case None => Ok(SortDesc(groups, TermKey))
  }

  /** The medians response: every term once, latest first, each with exactly its rows. */
  lemma MediansResponse(rows: seq<MedianRow>)
    requires SortMedians(GroupByTerm(rows)).Ok?
    ensures var sorted := SortMedians(GroupByTerm(rows)).value;
      SortedDesc(sorted, TermKey)
      && (forall g :: g in sorted ==> g.1 == Filter(rows, OfTerm(g.0)))
      && (forall r :: r in rows ==> exists g :: g in sorted && g.0 == r.term)
  {
    var groups := GroupByTerm(rows);
    GroupByTermGroups(rows);
    SortDescSorted(groups, TermKey);
    var sorted := SortMedians(groups).value;
    forall g | g in sorted
      ensures g.1 == Filter(rows, OfTerm(g.0))
    {
      assert g in multiset(sorted);
      assert g in multiset(groups);
      assert g in groups;
    }
    forall r | r in rows
      ensures exists g :: g in sorted && g.0 == r.term
    {
      var k :| 0 <= k < |groups| && groups[k].0 == r.term;
      assert groups[k] in multiset(groups);
      assert groups[k] in multiset(sorted);
      assert groups[k] in sorted;
    }
  }
}
