/**
 * The course list's browsing state in the front end (`useCourses`): the reactive
 * `pagination`, `filters` and `sorting` objects, and the URL query they are written
 * to and read back from.
 */
module CourseBrowser {
  import opened Wrappers
  import opened Strs

  /** The reactive `pagination` object; `current_page` may be NaN after a bad `?page=`. */
  datatype Pagination = Pagination(currentPage: JsNumber, totalPages: int, totalCourses: int, limit: int)

  /** The reactive `filters` object; `null` is None. */
  datatype Filters = Filters(department: string, code: string, minQuality: Option<JsNumber>, minDifficulty: Option<JsNumber>)

  /** The reactive `sorting` object. */
  datatype Sorting = Sorting(sortBy: string, sortOrder: string)

  /**
   * The object `getQueryObject` builds, one field per key it may set (None: key absent);
   * it has no min_difficulty key. The same shape read from the URL has strings throughout.
   */
  datatype Query<N> = Query(department: Option<string>, code: Option<string>, minQuality: Option<N>,
                            sortBy: Option<string>, sortOrder: Option<string>, page: Option<N>)

  /** A route's query as read from the URL: every value present is a string. */
  type RouteQuery = Query<string>

  const EmptyQuery: Query<string> := Query(None, None, None, None, None, None)

  const DefaultSortBy := "course_code"
  const DefaultSortOrder := "asc"

  const InitialFilters := Filters("", "", None, None)
  const InitialSorting := Sorting(DefaultSortBy, DefaultSortOrder)

  /** JavaScript truthiness of a filter number: null, NaN and 0 are false. */
  predicate TruthyNumber(n: Option<JsNumber>)
  {
    n.Some? && n.value.Num? && n.value.n != 0
  }

  /**
   * `getQueryObject(isAuth)`: department and trimmed code when non-empty, min_quality
   * when truthy and the user is authenticated, the sort pair when it is not the default,
   * and the page when it is beyond the first.
   */
  function QueryObject(f: Filters, s: Sorting, p: Pagination, isAuth: bool): Query<int>
  {
    var sorted := s.sortBy != DefaultSortBy || s.sortOrder != DefaultSortOrder;
    Query(
      if f.department != "" then Some(f.department) else None,
      if f.code != "" then Some(JsTrim(f.code)) else None,
      if TruthyNumber(f.minQuality) && isAuth then Some(f.minQuality.value.n) else None,
      if sorted then Some(s.sortBy) else None,
      if sorted then Some(s.sortOrder) else None,
      if p.currentPage.Num? && p.currentPage.n > 1 then Some(p.currentPage.n) else None)
  }

  /** How a query object reaches the URL: numbers become their decimal text. */
  function Stringify(q: Query<int>): RouteQuery
  {
    Query(q.department, q.code, IntText(q.minQuality), q.sortBy, q.sortOrder, IntText(q.page))
  }

  function IntText(n: Option<int>): (r: Option<string>)
  {
    match n case None => None case Some(i) => Some(IntToString(i))
  }

  /** `query.x || fallback`: a missing or empty value gives the fallback. */
  function OrDefault(value: Option<string>, fallback: string): string
  {
    if value.Some? && value.value != "" then value.value else fallback
  }

  /** The filters `syncStateFromQuery` leaves: min_difficulty is kept, the rest read from the query. */
  function FiltersFromQuery(f: Filters, query: RouteQuery): Filters
  {
    Filters(OrDefault(query.department, ""), OrDefault(query.code, ""),
      if OrDefault(query.minQuality, "") != "" then Some(JsParseInt(query.minQuality.value)) else None,
      f.minDifficulty)
  }

  function SortingFromQuery(query: RouteQuery): Sorting
  {
    Sorting(OrDefault(query.sortBy, DefaultSortBy), OrDefault(query.sortOrder, DefaultSortOrder))
  }

  function PageFromQuery(query: RouteQuery): JsNumber
  {
    if OrDefault(query.page, "") != "" then JsParseInt(query.page.value) else Num(1)
  }

  /** A state the query can carry without loss: trimmed code, no falsy min_quality, non-empty sort fields, a page number. */
  predicate Representable(f: Filters, s: Sorting, p: Pagination)
  {
    JsTrim(f.code) == f.code
    && (f.minQuality.None? || TruthyNumber(f.minQuality))
    && s.sortBy != "" && s.sortOrder != ""
    && p.currentPage.Num? && p.currentPage.n >= 1
  }

  /**
   * Reading back the query an authenticated user's state was written to restores that
   * state's filters, sorting and page (min_difficulty stays whatever it was).
   */
  lemma QueryRoundTrip(f: Filters, s: Sorting, p: Pagination, g: Filters)
    requires Representable(f, s, p)
    ensures var query := Stringify(QueryObject(f, s, p, true));
      FiltersFromQuery(g, query) == f.(minDifficulty := g.minDifficulty)
      && SortingFromQuery(query) == s
      && PageFromQuery(query) == p.currentPage
  {
    var q := QueryObject(f, s, p, true);
    assert FiltersFromQuery(g, Stringify(q)) == f.(minDifficulty := g.minDifficulty) by {
      QualityRoundTrip(f.minQuality);
    }
    assert PageFromQuery(Stringify(q)) == p.currentPage by {
      PageRoundTrip(p.currentPage);
    }
  }

  /** A min_quality that is null or truthy survives the trip through its text. */
  lemma QualityRoundTrip(n: Option<JsNumber>)
    requires n.None? || TruthyNumber(n)
    ensures var text := IntText(if TruthyNumber(n) then Some(n.value.n) else None);
      (if OrDefault(text, "") != "" then Some(JsParseInt(text.value)) else None) == n
  {
    if n.Some? {
      JsParseIntOfIntToString(n.value.n);
      NonEmptyIntText(n.value.n);
    }
  }

  /** A page number of at least one survives the trip through its text. */
  lemma PageRoundTrip(page: JsNumber)
    requires page.Num? && page.n >= 1
    ensures var text := IntText(if page.n > 1 then Some(page.n) else None);
      (if OrDefault(text, "") != "" then JsParseInt(text.value) else Num(1)) == page
  {
    if page.n > 1 {
      JsParseIntOfIntToString(page.n);
      NonEmptyIntText(page.n);
    }
  }

  lemma NonEmptyIntText(i: int)
    ensures IntToString(i) != ""
  {
  }

  /** Without authentication the query never carries min_quality. */
  lemma AnonymousQueryDropsQuality(f: Filters, s: Sorting, p: Pagination)
    ensures QueryObject(f, s, p, false).minQuality == None
  {
  }

  /** Reading an empty query gives the reset filters (but min_difficulty), the default sorting and page 1. */
  lemma SyncEmptyIsReset(f: Filters)
    ensures FiltersFromQuery(f, EmptyQuery) == InitialFilters.(minDifficulty := f.minDifficulty)
    ensures SortingFromQuery(EmptyQuery) == InitialSorting
    ensures PageFromQuery(EmptyQuery) == Num(1)
  {
  }

  /**
   * The query is empty exactly when the state shows nothing but defaults: no department
   * or code, no min_quality an authenticated user would send, the default sorting and
   * the first page (or a NaN or non-positive one).
   */
  lemma QueryEmptyIff(f: Filters, s: Sorting, p: Pagination, isAuth: bool)
    ensures QueryObject(f, s, p, isAuth) == Query(None, None, None, None, None, None)
      <==> f.department == "" && f.code == "" && !(TruthyNumber(f.minQuality) && isAuth)
           && s == InitialSorting && !(p.currentPage.Num? && p.currentPage.n > 1)
  {
  }

  /** A reset state writes the empty query. */
  lemma ResetQueryEmpty(p: Pagination, isAuth: bool)
    ensures QueryObject(InitialFilters, InitialSorting, p.(currentPage := Num(1)), isAuth) == Query(None, None, None, None, None, None)
  {
  }

  /** The state behind the course list page. */
  class CourseBrowser {
    var pagination: Pagination
    var filters: Filters
    var sorting: Sorting

    constructor()
      ensures pagination == Pagination(Num(1), 1, 0, 20)
      ensures filters == InitialFilters && sorting == InitialSorting
    {
      pagination := Pagination(Num(1), 1, 0, 20);
      filters := InitialFilters;
      sorting := InitialSorting;
    }

    /** `getQueryObject(isAuth)`, built key by key. */
    method GetQueryObject(isAuth: bool) returns (query: Query<int>)
      ensures query == QueryObject(filters, sorting, pagination, isAuth)
    {
      query := Query(None, None, None, None, None, None);
      if filters.department != "" {
        query := query.(department := Some(filters.department));
      }
      if filters.code != "" {
        query := query.(code := Some(JsTrim(filters.code)));
      }
      if TruthyNumber(filters.minQuality) && isAuth {
        query := query.(minQuality := Some(filters.minQuality.value.n));
      }
      if sorting.sortBy != DefaultSortBy || sorting.sortOrder != DefaultSortOrder {
        query := query.(sortBy := Some(sorting.sortBy));
        query := query.(sortOrder := Some(sorting.sortOrder));
      }
      if pagination.currentPage.Num? && pagination.currentPage.n > 1 {
        query := query.(page := Some(pagination.currentPage.n));
      }
    }

    /** `applyFiltersAndSort`: back to the first page, nothing else. */
    method ApplyFiltersAndSort()
      modifies this
      ensures pagination == old(pagination).(currentPage := Num(1))
      ensures filters == old(filters) && sorting == old(sorting)
    {
      pagination := pagination.(currentPage := Num(1));
    }

    /** `resetFiltersAndSort`: empty filters, the default sorting and page 1. */
    method ResetFiltersAndSort()
      modifies this
      ensures filters == InitialFilters && sorting == InitialSorting
      ensures pagination == old(pagination).(currentPage := Num(1))
    {
      filters := filters.(department := "");
      filters := filters.(code := "");
      filters := filters.(minQuality := None);
      filters := filters.(minDifficulty := None);
      sorting := sorting.(sortBy := DefaultSortBy);
      sorting := sorting.(sortOrder := DefaultSortOrder);
      pagination := pagination.(currentPage := Num(1));
    }

    /** `changePage(newPage)`: only a page within 1..total_pages is taken. */
    method ChangePage(newPage: int)
      modifies this
      ensures 1 <= newPage <= old(pagination.totalPages) ==> pagination == old(pagination).(currentPage := Num(newPage))
      ensures !(1 <= newPage <= old(pagination.totalPages)) ==> pagination == old(pagination)
      ensures filters == old(filters) && sorting == old(sorting)
    {
      if newPage >= 1 && newPage <= pagination.totalPages {
        pagination := pagination.(currentPage := Num(newPage));
      }
    }

    /** `syncStateFromQuery(query)`: filters, sorting and page read back from the URL. */
    method SyncStateFromQuery(query: RouteQuery)
      modifies this
      ensures filters == FiltersFromQuery(old(filters), query)
      ensures sorting == SortingFromQuery(query)
      ensures pagination == old(pagination).(currentPage := PageFromQuery(query))
    {
      filters := filters.(department := OrDefault(query.department, ""));
      filters := filters.(code := OrDefault(query.code, ""));
      filters := filters.(minQuality := if OrDefault(query.minQuality, "") != "" then Some(JsParseInt(query.minQuality.value)) else None);
      sorting := sorting.(sortBy := OrDefault(query.sortBy, DefaultSortBy));
      sorting := sorting.(sortOrder := OrDefault(query.sortOrder, DefaultSortOrder));
      pagination := pagination.(currentPage := if OrDefault(query.page, "") != "" then JsParseInt(query.page.value) else Num(1));
    }
  }
}
