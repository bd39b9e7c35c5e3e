/** The three search endpoints: the keyword search, the similar-courses
    lookup and the filter search. Each reads the query string, builds its
    parameters, runs the query through the engine (a function parameter)
    and answers with the shaped results or a fixed error message. */
module SearchViews {
  import opened Wrappers
  import opened Python
  import opened Strings
  import opened OrderedDict
  import opened Models
  import opened Queries

  /** The request's query string: every value given for each key, in order. */
  type QueryDict = map<string, seq<string>>

  /** `request.GET.get(k)` and `request.GET[k]`: the last value given. */
  function QGet(q: QueryDict, k: string): Option<string> {
    if k in q && |q[k]| > 0 then Some(q[k][|q[k]| - 1]) else None
  }

  /** The key was given with a non-empty last value (`request.GET.get(k)`
      is truthy). */
  predicate Given(q: QueryDict, k: string) {
    QGet(q, k).Some? && QGet(q, k).value != ""
  }

  /** What an endpoint answers. `Uncaught` is an exception that escapes the
      view and reaches the framework. */
  datatype Response =
    | Ok200(body: Envelope)
    | BadRequest400(message: string)
    | ServerError500(message: string)
    | Uncaught(error: PyError)

  const KeywordKey: string := "keyword"
  const PageParam: string := "p"
  const MissingKeywordMessage: string := "Request is missing 'keyword' query paramater"
  const ContactAdminMessage: string := "error executing ElasticSearch query; Please contact an administrator"
  const CheckLogsMessage: string := "error executing ElasticSearch query; please check the logs"

  /** Runs a built search and shapes the answer; any failure along the way
      is an error. */
  function RunAndShape(
    search: Result<Search, PyError>,
    engine: Search -> Result<RawResponse, PyError>,
    searchFilters: seq<SearchFilter>): (r: Result<Envelope, PyError>)
    ensures r.Ok? <==> search.Ok? && engine(search.value).Ok? && GetResults(engine(search.value).value, searchFilters).Ok?
    ensures r.Ok? ==> r == GetResults(engine(search.value).value, searchFilters)
  {
    var s :- search;
    var response :- engine(s);
    GetResults(response, searchFilters)
  }

  // ---------------------------------------------------------------------
  // Keyword search

  /** The page and sort parameters of the keyword search: the page is `p`
      when given and "1" otherwise; the sort is present only when given. */
  function ExtractSearchParams(q: QueryDict): (r: Params)
    ensures Get(r, PageKey) == Some(Str(if Given(q, PageParam) then QGet(q, PageParam).value else "1"))
    ensures Given(q, SortKey) ==> Get(r, SortKey) == Some(Str(QGet(q, SortKey).value))
    ensures !Given(q, SortKey) ==> Get(r, SortKey).None?
    ensures forall k :: HasKey(r, k) ==> k == PageKey || k == SortKey
  {
    var base: Params := [(PageKey, Str("1"))];
    assert Get(base, PageKey) == Some(Str("1"));
    assert forall k :: HasKey(base, k) ==> k == PageKey;
    var withPage := if Given(q, PageParam) then Put(base, PageKey, Str(QGet(q, PageParam).value)) else base;
    assert forall k :: k != PageKey ==> Get(withPage, k).None?;
    if Given(q, SortKey) then Put(withPage, SortKey, Str(QGet(q, SortKey).value)) else withPage
  }

  /** An active filter is configured on `field`, and the request gives it. */
  predicate ConfiguredAndGiven(fs: seq<SearchFilter>, q: QueryDict, field: string) {
    Given(q, field) && exists f :: f in fs && f.active && f.fieldName == field
  }

  /** The view's loop over the active filters: a field the request gives is
      copied with all its values; anything else in the request is ignored. */
  function AddConfiguredFilters(q: QueryDict, fs: seq<SearchFilter>, params: Params): (r: Params)
    ensures forall k :: ConfiguredAndGiven(fs, q, k) ==> Get(r, k) == Some(List(q[k]))
    ensures forall k :: !ConfiguredAndGiven(fs, q, k) ==> Get(r, k) == Get(params, k)
    decreases |fs|
  {
    if |fs| == 0 then params
    else
      var f := fs[0];
      var p1 := if f.active && Given(q, f.fieldName) then Put(params, f.fieldName, List(q[f.fieldName])) else params;
      var r := AddConfiguredFilters(q, fs[1..], p1);
      assert forall k :: ConfiguredAndGiven(fs, q, k) <==> ConfiguredAndGiven(fs[1..], q, k) || (f.active && Given(q, f.fieldName) && k == f.fieldName) by {
        forall k
          ensures ConfiguredAndGiven(fs, q, k) <==> ConfiguredAndGiven(fs[1..], q, k) || (f.active && Given(q, f.fieldName) && k == f.fieldName)
        {
          if ConfiguredAndGiven(fs, q, k) {
            var g :| g in fs && g.active && g.fieldName == k;
            if g != f {
              assert g in fs[1..];
            }
          }
          if ConfiguredAndGiven(fs[1..], q, k) {
            var g :| g in fs[1..] && g.active && g.fieldName == k;
            assert g in fs;
          }
        }
      }
      r
  }

  /** The parameter dictionary the keyword search receives. */
  function SearchParams(q: QueryDict, fs: seq<SearchFilter>): Params {
    AddConfiguredFilters(q, fs, ExtractSearchParams(q))
  }

  /** What reaches the keyword search: a page (default "1"), a sort when
      given, every configured and given filter with all its values, and
      nothing else from the query string. */
  lemma SearchParamsFromRequest(q: QueryDict, fs: seq<SearchFilter>)
    requires forall f :: f in fs && f.active ==> !Reserved(f.fieldName)
    ensures Get(SearchParams(q, fs), PageKey)
            == Some(Str(if Given(q, PageParam) then QGet(q, PageParam).value else "1"))
    ensures Get(SearchParams(q, fs), SortKey) == if Given(q, SortKey) then Some(Str(QGet(q, SortKey).value)) else None
    ensures forall k :: ConfiguredAndGiven(fs, q, k) ==> Get(SearchParams(q, fs), k) == Some(List(q[k]))
    ensures forall k :: HasKey(SearchParams(q, fs), k) ==> k == PageKey || k == SortKey || ConfiguredAndGiven(fs, q, k)
  {
    var base := ExtractSearchParams(q);
    var r := SearchParams(q, fs);
    assert !ConfiguredAndGiven(fs, q, PageKey);
    assert !ConfiguredAndGiven(fs, q, SortKey);
    forall k | HasKey(r, k)
      ensures k == PageKey || k == SortKey || ConfiguredAndGiven(fs, q, k)
    {
      assert Get(r, k).Some?;
      if !ConfiguredAndGiven(fs, q, k) {
        assert Get(base, k).Some?;
      }
    }
  }

  /** `SearchIndexView.get`. The UI configuration and the filter and sort
      tables are the stored state; `engine` executes the search. */
  function SearchIndexView(
    q: QueryDict,
    ui: Option<(Pk, XDSUIConfiguration)>,
    searchFilters: seq<SearchFilter>,
    sortOptions: seq<SearchSortOption>,
    index: string,
    engine: Search -> Result<RawResponse, PyError>): (r: Response)
    ensures !Given(q, KeywordKey) <==> r == BadRequest400(MissingKeywordMessage)
    ensures r.ServerError500? ==> r.message == ContactAdminMessage
    ensures !r.Uncaught?
    ensures r.Ok200? <==> (Given(q, KeywordKey) &&
      RunAndShape(SearchByKeyword(QGet(q, KeywordKey).value, SearchParams(q, searchFilters), ui, searchFilters, sortOptions, index),
                  engine, searchFilters).Ok?)
    ensures r.Ok200? ==>
      RunAndShape(SearchByKeyword(QGet(q, KeywordKey).value, SearchParams(q, searchFilters), ui, searchFilters, sortOptions, index),
                  engine, searchFilters) == Ok(r.body)
  {
    if !Given(q, KeywordKey) then BadRequest400(MissingKeywordMessage)
    else
      var keyword := QGet(q, KeywordKey).value;
      var search := SearchByKeyword(keyword, SearchParams(q, searchFilters), ui, searchFilters, sortOptions, index);
      match RunAndShape(search, engine, searchFilters)
      case Ok(envelope) => Ok200(envelope)
      case Err(_) => ServerError500(ContactAdminMessage)
  }

  /** Without a keyword nothing is queried: the answer is the same 400 for
      every engine and every stored configuration. */
  lemma MissingKeywordNeverQueries(
    q: QueryDict, ui: Option<(Pk, XDSUIConfiguration)>, searchFilters: seq<SearchFilter>,
    sortOptions: seq<SearchSortOption>, index: string,
    engine1: Search -> Result<RawResponse, PyError>, engine2: Search -> Result<RawResponse, PyError>)
    requires !Given(q, KeywordKey)
    ensures SearchIndexView(q, ui, searchFilters, sortOptions, index, engine1)
            == SearchIndexView(q, None, [], [], "", engine2)
  {
  }

  /** A keyword search without a stored configuration fails with the fixed
      500 message, whatever the engine would answer. */
  lemma MissingConfigurationIsServerError(
    q: QueryDict, searchFilters: seq<SearchFilter>, sortOptions: seq<SearchSortOption>, index: string,
    engine: Search -> Result<RawResponse, PyError>)
    requires Given(q, KeywordKey)
    ensures SearchIndexView(q, None, searchFilters, sortOptions, index, engine) == ServerError500(ContactAdminMessage)
  {
  }

  // ---------------------------------------------------------------------
  // Similar courses

  /** `GetMoreLikeThisView.get`. */
  function MoreLikeThisView(
    docId: string,
    index: string,
    searchFilters: seq<SearchFilter>,
    engine: Search -> Result<RawResponse, PyError>): (r: Response)
    ensures r.Ok200? || r == ServerError500(CheckLogsMessage)
    ensures r.Ok200? <==> engine(MoreLikeThisQuery(docId, index)).Ok? &&
                          GetResults(engine(MoreLikeThisQuery(docId, index)).value, searchFilters).Ok?
    ensures r.Ok200? ==>
      GetResults(engine(MoreLikeThisQuery(docId, index)).value, searchFilters) == Ok(r.body)
  {
    match RunAndShape(Ok(MoreLikeThisQuery(docId, index)), engine, searchFilters)
    case Ok(envelope) => Ok200(envelope)
    case Err(_) => ServerError500(CheckLogsMessage)
  }

  /** The similarity query requests no aggregation; when the engine answers
      without any, the view succeeds and passes the hits through. */
  lemma MoreLikeThisSucceedsWithoutAggregations(
    docId: string, index: string, searchFilters: seq<SearchFilter>,
    engine: Search -> Result<RawResponse, PyError>)
    requires engine(MoreLikeThisQuery(docId, index)).Ok?
    requires engine(MoreLikeThisQuery(docId, index)).value.aggregations == map[]
    ensures MoreLikeThisView(docId, index, searchFilters, engine).Ok200?
    ensures |MoreLikeThisView(docId, index, searchFilters, engine).body.hits|
            == |engine(MoreLikeThisQuery(docId, index)).value.hits|
  {
    ShapingWithoutAggregations(engine(MoreLikeThisQuery(docId, index)).value, searchFilters);
  }

  // ---------------------------------------------------------------------
  // Filter search

  /** The fields the filter search copies from the query string. */
  const FilterSearchFields: seq<string> :=
    ["Course.CourseTitle", "Course.CourseProviderName", "CourseInstance.CourseLevel"]

  /** `filters[field] = request.GET[field]` when the field is given. */
  function CopyIfGiven(q: QueryDict, params: Params, field: string): (r: Params)
    ensures Get(r, field) == if Given(q, field) then Some(Str(QGet(q, field).value)) else Get(params, field)
    ensures forall k :: k != field ==> Get(r, k) == Get(params, k)
  {
    if Given(q, field) then Put(params, field, Str(QGet(q, field).value)) else params
  }

  /** The filter dictionary of the filter search: each of the three fields
      the request gives, with its last value, and nothing else. */
  function FilterSearchParams(q: QueryDict): (r: Params)
    ensures forall k :: Get(r, k) == if k in FilterSearchFields && Given(q, k) then Some(Str(QGet(q, k).value)) else None
  {
    var empty: Params := [];
    var p1 := CopyIfGiven(q, empty, FilterSearchFields[0]);
    var p2 := CopyIfGiven(q, p1, FilterSearchFields[1]);
    var r := CopyIfGiven(q, p2, FilterSearchFields[2]);
    forall k
      ensures Get(r, k) == if k in FilterSearchFields && Given(q, k) then Some(Str(QGet(q, k).value)) else None
    {
      assert k in FilterSearchFields <==> k == FilterSearchFields[0] || k == FilterSearchFields[1] || k == FilterSearchFields[2];
      assert Get(empty, k).None?;
    }
    r
  }

  /** The page of the filter search: `int(p)` when given, 1 otherwise. The
      conversion runs outside the view's error handling. */
  function FilterSearchPage(q: QueryDict): (r: Result<int, PyError>)
    ensures !Given(q, PageParam) ==> r == Ok(1)
    ensures Given(q, PageParam) ==> r == ParseInt(QGet(q, PageParam).value)
  {
    if Given(q, PageParam) then ParseInt(QGet(q, PageParam).value) else Ok(1)
  }

  /** `FiltersView.get`; `searchByFilters` is the filter search it calls,
      which the query module does not define. */
  function FiltersView(
    q: QueryDict,
    searchFilters: seq<SearchFilter>,
    searchByFilters: (int, Params) -> Result<RawResponse, PyError>): (r: Response)
    ensures r.Uncaught? <==> FilterSearchPage(q).Err?
    ensures r.Uncaught? ==> r.error.ValueError?
    ensures r.ServerError500? ==> r.message == ContactAdminMessage
    ensures !r.BadRequest400?
    ensures r.Ok200? ==>
      && FilterSearchPage(q).Ok?
      && searchByFilters(FilterSearchPage(q).value, FilterSearchParams(q)).Ok?
      && GetResults(searchByFilters(FilterSearchPage(q).value, FilterSearchParams(q)).value, searchFilters) == Ok(r.body)
    ensures
      && FilterSearchPage(q).Ok?
      && searchByFilters(FilterSearchPage(q).value, FilterSearchParams(q)).Ok?
      && GetResults(searchByFilters(FilterSearchPage(q).value, FilterSearchParams(q)).value, searchFilters).Ok?
      ==> r.Ok200?
  {
    match FilterSearchPage(q)
    case Err(e) => Uncaught(e)
    case Ok(page) =>
      var result: Result<Envelope, PyError> :=
        var response :- searchByFilters(page, FilterSearchParams(q));
        GetResults(response, searchFilters);
      match result
      case Ok(envelope) => Ok200(envelope)
      case Err(_) => ServerError500(ContactAdminMessage)
  }

  /** A page that is not an integer escapes the view, before any search. */
  lemma NonNumericFilterPageEscapes(
    q: QueryDict, searchFilters: seq<SearchFilter>,
    searchByFilters: (int, Params) -> Result<RawResponse, PyError>)
    requires q == map[PageParam := ["two"]]
    ensures FiltersView(q, searchFilters, searchByFilters) == Uncaught(ValueError("invalid literal for int()"))
  {
    assert QGet(q, PageParam) == Some("two");
    assert !AllDigits("two") by {
      assert !IsDigit("two"[0]);
    }
    assert FilterSearchPage(q) == Err(ValueError("invalid literal for int()"));
  }
}
