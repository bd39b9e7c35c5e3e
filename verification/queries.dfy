/** Search-query construction and result shaping: the query the search
    endpoints send to the engine, as a value, and the reshaping of the
    engine's answer into the `{hits, total, aggregations}` envelope. The
    engine itself (execution, multi-get) is an input: a response value or a
    map from document id to document. */
module Queries {
  import opened Wrappers
  import opened Python
  import opened Strings
  import opened Seqs
  import opened OrderedDict
  import opened Models

  /** Suffix naming the exact-match sibling of an analysed text field. */
  const KeywordSuffix: string := ".keyword"
  /** Request keys that steer paging and sorting and are never filters. */
  const PageKey: string := "page"
  const SortKey: string := "sort"
  /** The course text fields the keyword is matched against. */
  const CourseTextFields: seq<string> :=
    ["Course.CourseShortDescription", "Course.CourseFullDescription", "Course.CourseTitle"]
  /** How many similar courses the similarity query asks for. */
  const SimilarResultCount: int := 6

  // ---------------------------------------------------------------------
  // The query

  /** A request value: the page and sort keys hold one string, a filter
      copied from the query string holds the full list of its values. */
  datatype FilterValue = Str(s: string) | List(items: seq<string>)

  /** The request's parameter dictionary, in insertion order. */
  type Params = Dict<FilterValue>

  datatype LikeDoc = LikeDoc(index: string, id: string)

  /** The scoring clause: a multi-field full-text match, or a
      more-like-this over seed documents. */
  datatype Clause =
    | MultiMatch(query: string, fields: seq<string>)
    | MoreLikeThis(like: seq<LikeDoc>)

  /** A `terms` filter: the field must hold one of the values. */
  datatype Terms = Terms(field: string, values: FilterValue)

  /** A bucket aggregation of the given type over a field. */
  datatype Bucket = Bucket(aggType: string, field: string)

  /** The slice `[start:stop]` of the ranked hits. */
  datatype Window = Window(start: int, stop: int)

  datatype Search = Search(
    index: string,
    query: Clause,
    filters: seq<Terms>,
    sort: Option<string>,
    aggs: map<string, Bucket>,
    window: Option<Window>)

  function NewSearch(index: string, query: Clause): Search {
    Search(index, query, [], None, map[], None)
  }

  predicate Reserved(key: string) {
    key == PageKey || key == SortKey
  }

  // ---------------------------------------------------------------------
  // Pagination

  /** `get_page_start`: offset of the first hit of a 1-based page. */
  function PageStart(page: int, size: int): (r: int)
    ensures page <= 1 ==> r == 0
    ensures size >= 0 ==> r >= 0
  {
    if page <= 1 then 0 else (page - 1) * size
  }

  /** Page 1 starts at 0 and each page starts where the previous one ends,
      so consecutive windows tile the hits without gap or overlap. */
  lemma PageWindowsTile(page: int, size: int)
    requires page >= 1
    ensures PageStart(1, size) == 0
    ensures PageStart(page + 1, size) == PageStart(page, size) + size
  {
  }

  /** Windows of two different pages never overlap. */
  lemma PageWindowsDisjoint(p: int, q: int, size: int)
    requires 1 <= p < q && size >= 0
    ensures PageStart(p, size) + size <= PageStart(q, size)
  {
    NonNegativeProduct(q - 1 - p, size);
    assert (q - 1) * size == (p - 1) * size + size + (q - 1 - p) * size;
  }

  lemma {:induction false} NonNegativeProduct(k: int, size: int)
    requires k >= 0 && size >= 0
    ensures k * size >= 0
    decreases k
  {
    if k > 0 {
      NonNegativeProduct(k - 1, size);
      assert k * size == (k - 1) * size + size;
    }
  }

  lemma PageStartExamples()
    ensures PageStart(6, 8) == 40
    ensures PageStart(2, 1) == 1
    ensures PageStart(-4, 10) == 0
    ensures PageStart(1, 33) == 0
  {
  }

  // ---------------------------------------------------------------------
  // Aggregations

  function BucketFor(f: SearchFilter): Bucket {
    Bucket(f.filterType, f.fieldName + KeywordSuffix)
  }

  /** No filter after position `i` shares its display name. */
  predicate LastWithName(fs: seq<SearchFilter>, i: int)
    requires 0 <= i < |fs|
  {
    forall j :: i < j < |fs| ==> fs[j].displayName != fs[i].displayName
  }

  /** `add_search_aggregations`: one bucket per filter, keyed by its display
      name; a later filter with the same name replaces the earlier bucket.
      Only the buckets change; what they hold is stated by the three lemmas
      that follow. */
  function AddSearchAggregations(fs: seq<SearchFilter>, s: Search): (r: Search)
    ensures r == s.(aggs := r.aggs)
    decreases |fs|
  {
    if |fs| == 0 then s
    else AddSearchAggregations(fs[1..], s.(aggs := s.aggs[fs[0].displayName := BucketFor(fs[0])]))
  }

  /** Some position of `fs` holds a filter with display name `n`. */
  predicate NameAt(fs: seq<SearchFilter>, n: string) {
    exists i :: 0 <= i < |fs| && fs[i].displayName == n
  }

  /** The buckets after the call are the ones before it and one per
      display name. */
  lemma {:induction false} AggregationNames(fs: seq<SearchFilter>, s: Search)
    ensures forall n :: n in AddSearchAggregations(fs, s).aggs <==> n in s.aggs || NameAt(fs, n)
    decreases |fs|
  {
    if |fs| > 0 {
      var s1 := s.(aggs := s.aggs[fs[0].displayName := BucketFor(fs[0])]);
      AggregationNames(fs[1..], s1);
      forall n
        ensures NameAt(fs, n) <==> n == fs[0].displayName || NameAt(fs[1..], n)
      {
        if NameAt(fs, n) {
          var i :| 0 <= i < |fs| && fs[i].displayName == n;
          if i > 0 {
            assert fs[1..][i - 1] == fs[i];
          }
        }
        if NameAt(fs[1..], n) {
          var i :| 0 <= i < |fs[1..]| && fs[1..][i].displayName == n;
          assert fs[i + 1] == fs[1..][i];
        }
      }
    }
  }

  /** The last filter carrying a display name decides that name's bucket. */
  lemma {:induction false} LastBucketWins(fs: seq<SearchFilter>, s: Search)
    ensures forall i :: 0 <= i < |fs| && LastWithName(fs, i) ==>
      && fs[i].displayName in AddSearchAggregations(fs, s).aggs
      && AddSearchAggregations(fs, s).aggs[fs[i].displayName] == BucketFor(fs[i])
    decreases |fs|
  {
    if |fs| > 0 {
      var s1 := s.(aggs := s.aggs[fs[0].displayName := BucketFor(fs[0])]);
      LastBucketWins(fs[1..], s1);
      BucketsOfOtherNamesKept(fs[1..], s1);
      forall i | 0 <= i < |fs| && LastWithName(fs, i)
        ensures fs[i].displayName in AddSearchAggregations(fs, s).aggs
        ensures AddSearchAggregations(fs, s).aggs[fs[i].displayName] == BucketFor(fs[i])
      {
        if i > 0 {
          assert fs[1..][i - 1] == fs[i];
          assert LastWithName(fs[1..], i - 1) by {
            forall j | i - 1 < j < |fs[1..]|
              ensures fs[1..][j].displayName != fs[1..][i - 1].displayName
            {
              assert fs[1..][j] == fs[j + 1];
            }
          }
        } else {
          forall j | 0 <= j < |fs[1..]|
            ensures fs[1..][j].displayName != fs[0].displayName
          {
            assert fs[1..][j] == fs[j + 1];
          }
        }
      }
    }
  }

  /** A bucket whose name no filter carries is left as it was. */
  lemma {:induction false} BucketsOfOtherNamesKept(fs: seq<SearchFilter>, s: Search)
    ensures forall n :: n in s.aggs && (forall i :: 0 <= i < |fs| ==> fs[i].displayName != n) ==>
      n in AddSearchAggregations(fs, s).aggs && AddSearchAggregations(fs, s).aggs[n] == s.aggs[n]
    decreases |fs|
  {
    if |fs| > 0 {
      var s1 := s.(aggs := s.aggs[fs[0].displayName := BucketFor(fs[0])]);
      BucketsOfOtherNamesKept(fs[1..], s1);
      forall n | n in s.aggs && (forall i :: 0 <= i < |fs| ==> fs[i].displayName != n)
        ensures n in AddSearchAggregations(fs, s).aggs && AddSearchAggregations(fs, s).aggs[n] == s.aggs[n]
      {
        assert fs[0].displayName != n;
        forall i | 0 <= i < |fs[1..]|
          ensures fs[1..][i].displayName != n
        {
          assert fs[1..][i] == fs[i + 1];
        }
      }
    }
  }

  // ---------------------------------------------------------------------
  // Filters

  /** Appending the same suffix keeps distinct keys distinct. */
  lemma SuffixInjective(a: string, b: string, suffix: string)
    ensures a != b ==> a + suffix != b + suffix
  {
    if a + suffix == b + suffix {
      assert a == (a + suffix)[..|a|];
      assert b == (b + suffix)[..|b|];
    }
  }

  function TermsFor(entry: (string, FilterValue)): Terms {
    Terms(entry.0 + KeywordSuffix, entry.1)
  }

  /** The request entry a filter was built from: its field without the
      exact-match suffix, and its values. */
  function Origin(t: Terms): (string, FilterValue) {
    if |t.field| >= |KeywordSuffix| then (t.field[..|t.field| - |KeywordSuffix|], t.values)
    else (t.field, t.values)
  }

  lemma OriginOfTermsFor(e: (string, FilterValue))
    ensures Origin(TermsFor(e)) == e
  {
    assert (e.0 + KeywordSuffix)[..|e.0|] == e.0;
  }

  /** The `terms` filters for the non-reserved entries of `d`, in order. */
  function FilterClauses(d: seq<(string, FilterValue)>): (r: seq<Terms>)
    ensures |r| <= |d|
    decreases |d|
  {
    if |d| == 0 then []
    else if Reserved(d[0].0) then FilterClauses(d[1..])
    else [TermsFor(d[0])] + FilterClauses(d[1..])
  }

  /** Each filter is built from a non-reserved entry of `d`. */
  ghost predicate FromEntries(r: seq<Terms>, d: seq<(string, FilterValue)>) {
    forall i :: 0 <= i < |r| ==> Origin(r[i]) in d && !Reserved(Origin(r[i]).0) && r[i] == TermsFor(Origin(r[i]))
  }

  /** No two filters constrain the same field. */
  ghost predicate DistinctFields(r: seq<Terms>) {
    forall i, k :: 0 <= i < k < |r| ==> r[i].field != r[k].field
  }

  /** Each filter comes from a non-reserved entry of `d`. */
  lemma {:induction false} FilterClausesSound(d: seq<(string, FilterValue)>)
    ensures FromEntries(FilterClauses(d), d)
    decreases |d|
  {
    if |d| > 0 {
      FilterClausesSound(d[1..]);
      var rest := FilterClauses(d[1..]);
      var r := FilterClauses(d);
      assert forall e :: e in d[1..] ==> e in d;
      if !Reserved(d[0].0) {
        OriginOfTermsFor(d[0]);
        assert forall i :: 0 < i < |r| ==> r[i] == rest[i - 1];
      }
    }
  }

  /** Every non-reserved entry of `d` has its filter. */
  lemma {:induction false} FilterClausesComplete(d: seq<(string, FilterValue)>)
    ensures forall e :: e in d && !Reserved(e.0) ==> TermsFor(e) in FilterClauses(d)
    decreases |d|
  {
    if |d| > 0 {
      FilterClausesComplete(d[1..]);
      assert forall e :: e in d ==> e == d[0] || e in d[1..];
    }
  }

  /** Distinct request keys give filters on distinct fields. */
  lemma {:induction false} FilterClausesDistinct(d: seq<(string, FilterValue)>)
    requires UniqueKeys(d)
    ensures DistinctFields(FilterClauses(d))
    decreases |d|
  {
    if |d| > 0 {
      var rest := FilterClauses(d[1..]);
      FilterClausesDistinct(d[1..]);
      FilterClausesSound(d[1..]);
      if !Reserved(d[0].0) {
        var r := FilterClauses(d);
        assert r == [TermsFor(d[0])] + rest;
        forall i, k | 0 <= i < k < |r|
          ensures r[i].field != r[k].field
        {
          if i == 0 {
            var o := Origin(rest[k - 1]);
            assert o in d[1..];
            var j :| 0 <= j < |d[1..]| && d[1..][j] == o;
            assert d[1..][j] == d[j + 1];
            SuffixInjective(d[0].0, o.0, KeywordSuffix);
          } else {
            assert r[i] == rest[i - 1] && r[k] == rest[k - 1];
          }
        }
      }
    }
  }

  /** `add_search_filters`: appends exactly one `terms` filter per request
      key other than `page` and `sort`, on the key's exact-match field, with
      the request value unchanged. */
  function AddSearchFilters(s: Search, filters: Params): (r: Search)
    ensures r == s.(filters := r.filters)
    ensures |r.filters| >= |s.filters| && r.filters[..|s.filters|] == s.filters
    ensures var added := r.filters[|s.filters|..];
      && (forall i :: 0 <= i < |added| ==>
            && !Reserved(Origin(added[i]).0)
            && Get(filters, Origin(added[i]).0) == Some(Origin(added[i]).1)
            && added[i] == TermsFor(Origin(added[i])))
      && (forall e :: e in filters && !Reserved(e.0) ==> TermsFor(e) in added)
      && (forall i, k :: 0 <= i < k < |added| ==> added[i].field != added[k].field)
  {
    var added := FilterClauses(filters);
    FilterClausesSound(filters);
    FilterClausesComplete(filters);
    FilterClausesDistinct(filters);
    assert forall e :: e in filters ==> Get(filters, e.0) == Some(e.1);
    var r := s.(filters := s.filters + added);
    assert r.filters[|s.filters|..] == added;
    r
  }

  lemma {:induction false} FilterClausesOfReserved(d: seq<(string, FilterValue)>)
    requires forall j :: 0 <= j < |d| ==> Reserved(d[j].0)
    ensures FilterClauses(d) == []
    decreases |d|
  {
    if |d| > 0 {
      FilterClausesOfReserved(d[1..]);
    }
  }

  /** A dictionary holding only reserved keys adds no filter at all. */
  lemma ReservedKeysAddNoFilter(s: Search, filters: Params)
    requires forall j :: 0 <= j < |filters| ==> Reserved(filters[j].0)
    ensures AddSearchFilters(s, filters) == s
  {
    FilterClausesOfReserved(filters);
    assert s.filters + [] == s.filters;
  }

  // ---------------------------------------------------------------------
  // Sorting

  /** The first active sort option on `key`, as the whitelist lookup finds it. */
  function FindSortOption(options: seq<SearchSortOption>, key: string): (r: Option<SearchSortOption>)
    ensures r.Some? ==> r.value in options && r.value.active && r.value.fieldName == key
    ensures r.None? ==> forall o :: o in options && o.active ==> o.fieldName != key
  {
    if |options| == 0 then None
    else if options[0].active && options[0].fieldName == key then Some(options[0])
    else FindSortOption(options[1..], key)
  }

  /** An active sort option is configured on `key`. */
  predicate SortAllowed(options: seq<SearchSortOption>, key: string) {
    exists o :: o in options && o.active && o.fieldName == key
  }

  /** `add_search_sort`: sorts on the exact-match sibling of the requested
      `sort` value when an active sort option names that field; otherwise
      the search is returned unchanged, with no error. */
  function AddSearchSort(s: Search, filters: Params, options: seq<SearchSortOption>): (r: Search)
    ensures r.sort != s.sort ==> r == s.(sort := r.sort)
    ensures (exists key :: Get(filters, SortKey) == Some(Str(key)) && SortAllowed(options, key)) ==>
      r == s.(sort := Some(Get(filters, SortKey).value.s + KeywordSuffix))
    ensures !(exists key :: Get(filters, SortKey) == Some(Str(key)) && SortAllowed(options, key)) ==> r == s
  {
    var requested: Option<FilterValue> := Get(filters, SortKey);
    match requested
    case Some(Str(key)) =>
      if FindSortOption(options, key).Some? then s.(sort := Some(key + KeywordSuffix)) else s
    case _ => s
  }

  // ---------------------------------------------------------------------
  // The keyword search

  /** The filters of the UI configuration that take part in a search. */
  function ScopedFilters(fs: seq<SearchFilter>, ui: Pk): (r: seq<SearchFilter>)
    ensures forall i :: 0 <= i < |r| ==> r[i].active && r[i].xdsUIConfiguration == ui && r[i] in fs
    ensures forall f :: f in fs && f.active && f.xdsUIConfiguration == ui ==> f in r
  {
    Filter(fs, (f: SearchFilter) => f.active && f.xdsUIConfiguration == ui)
  }

  /** `int(filters['page'])`: a missing page is a KeyError, a list a
      TypeError, a string that is not an integer a ValueError. */
  function PageNumber(filters: Params): (r: Result<int, PyError>)
    ensures !HasKey(filters, PageKey) ==> r == Err(KeyError(PageKey))
    ensures r.Ok? <==> exists p :: Get(filters, PageKey) == Some(Str(p)) && ParseInt(p).Ok?
    ensures r.Ok? ==> ParseInt(Get(filters, PageKey).value.s) == r
  {
    var page: Option<FilterValue> := Get(filters, PageKey);
    match page
    case None => Err(KeyError(PageKey))
    case Some(List(_)) => Err(TypeError("int() argument must be a string"))
    case Some(Str(p)) => ParseInt(p)
  }

  /** The query `search_by_keyword` assembles once the page number is known:
      the multi-field match, the sort, the aggregations of the UI
      configuration's active filters, the request filters and the window. */
  function KeywordQuery(
    keyword: string,
    filters: Params,
    ui: Pk,
    pageSize: int,
    page: int,
    searchFilters: seq<SearchFilter>,
    sortOptions: seq<SearchSortOption>,
    index: string): (r: Search)
    ensures r.index == index && r.query == MultiMatch(keyword, CourseTextFields)
    ensures r.window.Some? && r.window.value.stop - r.window.value.start == pageSize
    ensures page <= 1 ==> r.window == Some(Window(0, pageSize))
    ensures r.window == Some(Window(PageStart(page, pageSize), PageStart(page, pageSize) + pageSize))
  {
    var start := PageStart(page, pageSize);
    UnslicedKeywordQuery(keyword, filters, ui, searchFilters, sortOptions, index).(window := Some(Window(start, start + pageSize)))
  }

  /** The keyword query before the slice: the match, the sort, the buckets
      and the request filters. */
  function UnslicedKeywordQuery(
    keyword: string,
    filters: Params,
    ui: Pk,
    searchFilters: seq<SearchFilter>,
    sortOptions: seq<SearchSortOption>,
    index: string): (r: Search)
    ensures r.index == index && r.query == MultiMatch(keyword, CourseTextFields)
  {
    var q := NewSearch(index, MultiMatch(keyword, CourseTextFields));
    var sorted := AddSearchSort(q, filters, sortOptions);
    var withAggs := AddSearchAggregations(ScopedFilters(searchFilters, ui), sorted);
    AddSearchFilters(withAggs, filters)
  }

  /** The message of the search library's refusal of a slice with a
      negative bound. */
  const NegativeSliceMessage: string := "Search does not support negative slicing."

  /** `search_by_keyword` up to execution. `ui` is the UI configuration
      reached from the first XDS configuration, with its key; its absence
      raises, and so does a page that is missing or not an integer. The
      slice `s[start:stop]` raises ValueError when either bound is negative,
      which happens exactly when the stored page size is negative (the
      minimum of 1 is enforced only by the form validation, not on save). */
  function SearchByKeyword(
    keyword: string,
    filters: Params,
    ui: Option<(Pk, XDSUIConfiguration)>,
    searchFilters: seq<SearchFilter>,
    sortOptions: seq<SearchSortOption>,
    index: string): (r: Result<Search, PyError>)
    ensures ui.None? ==> r.Err? && r.error.AttributeError?
    ensures ui.Some? ==> (r.Ok? <==> PageNumber(filters).Ok? && ui.value.1.searchResultsPerPage >= 0)
    ensures ui.Some? && PageNumber(filters).Err? ==> r == Err(PageNumber(filters).error)
    ensures ui.Some? && PageNumber(filters).Ok? && ui.value.1.searchResultsPerPage < 0 ==>
              r == Err(ValueError(NegativeSliceMessage))
    ensures r.Ok? ==> r.value == KeywordQuery(keyword, filters, ui.value.0, ui.value.1.searchResultsPerPage,
                                              PageNumber(filters).value, searchFilters, sortOptions, index)
  {
    if ui.None? then Err(AttributeError("'NoneType' object has no attribute 'xdsuiconfiguration'"))
    else
      var page :- PageNumber(filters);
      var pageSize := ui.value.1.searchResultsPerPage;
      var start := PageStart(page, pageSize);
      SliceBoundsNegative(page, pageSize);
      if start < 0 || start + pageSize < 0 then Err(ValueError(NegativeSliceMessage))
      else Ok(KeywordQuery(keyword, filters, ui.value.0, pageSize, page, searchFilters, sortOptions, index))
  }

  /** A page window has a negative bound exactly when the page size is
      negative. */
  lemma SliceBoundsNegative(page: int, size: int)
    ensures PageStart(page, size) < 0 || PageStart(page, size) + size < 0 <==> size < 0
    ensures size < 0 && page > 1 ==> PageStart(page, size) < 0
  {
    if page > 1 && size < 0 {
      assert (page - 1) * size <= size by {
        assert (page - 1) * size - size == (page - 2) * size;
        assert (page - 2) * size <= 0;
      }
    }
  }

  /** How the keyword query decomposes: the filters come from the request
      alone, the buckets from the scoped filters alone, the sort from the
      request and the sort options alone. */
  lemma KeywordQueryParts(
    keyword: string, filters: Params, ui: Pk, pageSize: int, page: int,
    searchFilters: seq<SearchFilter>, sortOptions: seq<SearchSortOption>, index: string)
    ensures KeywordQuery(keyword, filters, ui, pageSize, page, searchFilters, sortOptions, index).filters
            == FilterClauses(filters)
    ensures KeywordQuery(keyword, filters, ui, pageSize, page, searchFilters, sortOptions, index).aggs
            == AddSearchAggregations(ScopedFilters(searchFilters, ui), NewSearch(index, MultiMatch(keyword, CourseTextFields))).aggs
    ensures KeywordQuery(keyword, filters, ui, pageSize, page, searchFilters, sortOptions, index).sort
            == AddSearchSort(NewSearch(index, MultiMatch(keyword, CourseTextFields)), filters, sortOptions).sort
  {
    var q := NewSearch(index, MultiMatch(keyword, CourseTextFields));
    var sorted := AddSearchSort(q, filters, sortOptions);
    var withAggs := AddSearchAggregations(ScopedFilters(searchFilters, ui), sorted);
    assert withAggs.filters == [];
    var filtered := AddSearchFilters(withAggs, filters);
    assert filtered.filters == [] + FilterClauses(filters);
    var viaQ := AddSearchAggregations(ScopedFilters(searchFilters, ui), q);
    AggregationsIgnoreSort(ScopedFilters(searchFilters, ui), q, sorted);
  }

  /** Buckets depend only on the filters and the buckets already present. */
  lemma {:induction false} AggregationsIgnoreSort(fs: seq<SearchFilter>, s: Search, t: Search)
    requires s.aggs == t.aggs
    ensures AddSearchAggregations(fs, s).aggs == AddSearchAggregations(fs, t).aggs
    decreases |fs|
  {
    if |fs| > 0 {
      AggregationsIgnoreSort(fs[1..], s.(aggs := s.aggs[fs[0].displayName := BucketFor(fs[0])]),
                                      t.(aggs := t.aggs[fs[0].displayName := BucketFor(fs[0])]));
    }
  }

  /** Some filter of `fs` carries the display name `n`. */
  predicate NamedIn(fs: seq<SearchFilter>, n: string) {
    exists f :: f in fs && f.displayName == n
  }

  /** Some active filter of UI configuration `ui` carries the display name `n`. */
  predicate ActiveNamedIn(fs: seq<SearchFilter>, ui: Pk, n: string) {
    exists f :: f in fs && f.active && f.xdsUIConfiguration == ui && f.displayName == n
  }

  /** Starting from no buckets, the bucket names are exactly the filters'
      display names. */
  lemma AggregationKeys(fs: seq<SearchFilter>, s: Search)
    requires s.aggs == map[]
    ensures forall n :: n in AddSearchAggregations(fs, s).aggs <==> NamedIn(fs, n)
  {
    var r := AddSearchAggregations(fs, s);
    AggregationNames(fs, s);
    forall n
      ensures n in r.aggs <==> NamedIn(fs, n)
    {
      if n in r.aggs {
        var i :| 0 <= i < |fs| && fs[i].displayName == n;
        assert fs[i] in fs;
      }
      if NamedIn(fs, n) {
        var f :| f in fs && f.displayName == n;
        var i :| 0 <= i < |fs| && fs[i] == f;
      }
    }
  }

  /** Starting from no buckets, the scoped filters give one bucket per
      active filter of the UI configuration. */
  lemma ScopedAggregationKeys(searchFilters: seq<SearchFilter>, ui: Pk, s: Search)
    requires s.aggs == map[]
    ensures forall n :: n in AddSearchAggregations(ScopedFilters(searchFilters, ui), s).aggs <==>
      ActiveNamedIn(searchFilters, ui, n)
  {
    var scoped := ScopedFilters(searchFilters, ui);
    AggregationKeys(scoped, s);
    forall n
      ensures NamedIn(scoped, n) <==> ActiveNamedIn(searchFilters, ui, n)
    {
      if NamedIn(scoped, n) {
        var f :| f in scoped && f.displayName == n;
        var i :| 0 <= i < |scoped| && scoped[i] == f;
      }
      if ActiveNamedIn(searchFilters, ui, n) {
        var f :| f in searchFilters && f.active && f.xdsUIConfiguration == ui && f.displayName == n;
        assert f in scoped;
      }
    }
  }

  /** The keyword search requests one aggregation per active filter of the
      UI configuration, and no other. */
  lemma SearchAggregatesActiveFilters(
    keyword: string, filters: Params, ui: Pk, pageSize: int, page: int,
    searchFilters: seq<SearchFilter>, sortOptions: seq<SearchSortOption>, index: string)
    ensures forall n :: n in KeywordQuery(keyword, filters, ui, pageSize, page, searchFilters, sortOptions, index).aggs <==>
      ActiveNamedIn(searchFilters, ui, n)
  {
    KeywordQueryParts(keyword, filters, ui, pageSize, page, searchFilters, sortOptions, index);
    ScopedAggregationKeys(searchFilters, ui, NewSearch(index, MultiMatch(keyword, CourseTextFields)));
  }

  /** The keyword search filters on exactly the request's non-reserved
      entries, one `terms` filter per key, on distinct fields. */
  lemma SearchFiltersFollowRequest(
    keyword: string, filters: Params, ui: Pk, pageSize: int, page: int,
    searchFilters: seq<SearchFilter>, sortOptions: seq<SearchSortOption>, index: string)
    ensures FromEntries(KeywordQuery(keyword, filters, ui, pageSize, page, searchFilters, sortOptions, index).filters, filters)
    ensures DistinctFields(KeywordQuery(keyword, filters, ui, pageSize, page, searchFilters, sortOptions, index).filters)
    ensures forall e :: e in filters && !Reserved(e.0) ==>
      TermsFor(e) in KeywordQuery(keyword, filters, ui, pageSize, page, searchFilters, sortOptions, index).filters
  {
    KeywordQueryParts(keyword, filters, ui, pageSize, page, searchFilters, sortOptions, index);
    FilterClausesSound(filters);
    FilterClausesComplete(filters);
    FilterClausesDistinct(filters);
  }

  /** The keyword search sorts exactly when the request's `sort` value names
      an active sort option, and then on that field's exact-match sibling. */
  lemma SearchSortIsWhitelisted(
    keyword: string, filters: Params, ui: Pk, pageSize: int, page: int,
    searchFilters: seq<SearchFilter>, sortOptions: seq<SearchSortOption>, index: string)
    ensures KeywordQuery(keyword, filters, ui, pageSize, page, searchFilters, sortOptions, index).sort.Some?
            <==> exists key :: Get(filters, SortKey) == Some(Str(key)) && SortAllowed(sortOptions, key)
    ensures KeywordQuery(keyword, filters, ui, pageSize, page, searchFilters, sortOptions, index).sort.Some? ==>
      KeywordQuery(keyword, filters, ui, pageSize, page, searchFilters, sortOptions, index).sort.value
      == Get(filters, SortKey).value.s + KeywordSuffix
  {
    KeywordQueryParts(keyword, filters, ui, pageSize, page, searchFilters, sortOptions, index);
  }

  /** A request for the first page with no filter or sort yields the window
      `[0:size]`, the match on the course title and description fields, no
      sort (relevance order) and one aggregation per active filter. */
  lemma FirstPageScenario(keyword: string, ui: Pk, config: XDSUIConfiguration,
                          searchFilters: seq<SearchFilter>, sortOptions: seq<SearchSortOption>, index: string)
    requires config.searchResultsPerPage >= 0
    ensures var filters: Params := [(PageKey, Str("1"))];
            var r := SearchByKeyword(keyword, filters, Some((ui, config)), searchFilters, sortOptions, index);
            && r.Ok?
            && r.value.window == Some(Window(0, config.searchResultsPerPage))
            && r.value.query == MultiMatch(keyword, CourseTextFields)
            && r.value.sort.None?
            && r.value.filters == []
  {
    var filters: Params := [(PageKey, Str("1"))];
    assert Get(filters, PageKey) == Some(Str("1"));
    assert Get(filters, SortKey).None?;
    assert ParseInt("1") == Ok(1) by {
      assert AllDigits("1");
      assert DigitsValue("1") == DigitsValue("1"[..0]) * 10 + 1;
    }
    var r := SearchByKeyword(keyword, filters, Some((ui, config)), searchFilters, sortOptions, index);
    KeywordQueryParts(keyword, filters, ui, config.searchResultsPerPage, 1, searchFilters, sortOptions, index);
    assert r.value.filters == FilterClauses(filters);
    assert FilterClauses(filters) == [] by {
      assert filters[1..] == [];
    }
  }

  /** A stored negative page size makes every keyword search with a valid
      page fail at the slice, on the first page as on any later one. */
  lemma NegativePageSizeRefused(keyword: string, filters: Params, ui: Pk, config: XDSUIConfiguration,
                                searchFilters: seq<SearchFilter>, sortOptions: seq<SearchSortOption>, index: string)
    requires PageNumber(filters).Ok? && config.searchResultsPerPage < 0
    ensures SearchByKeyword(keyword, filters, Some((ui, config)), searchFilters, sortOptions, index)
            == Err(ValueError(NegativeSliceMessage))
    ensures PageNumber(filters).value <= 1 ==>
      KeywordQuery(keyword, filters, ui, config.searchResultsPerPage, PageNumber(filters).value,
                   searchFilters, sortOptions, index).window.value.stop < 0
    ensures PageNumber(filters).value > 1 ==>
      KeywordQuery(keyword, filters, ui, config.searchResultsPerPage, PageNumber(filters).value,
                   searchFilters, sortOptions, index).window.value.start < 0
  {
    var page, size := PageNumber(filters).value, config.searchResultsPerPage;
    SliceBoundsNegative(page, size);
    var query := KeywordQuery(keyword, filters, ui, size, page, searchFilters, sortOptions, index);
    assert query.window == Some(Window(PageStart(page, size), PageStart(page, size) + size));
  }

  /** A page value that is not an integer fails with ValueError. */
  lemma NonNumericPageFails(keyword: string, ui: Pk, config: XDSUIConfiguration,
                            searchFilters: seq<SearchFilter>, sortOptions: seq<SearchSortOption>, index: string)
    ensures var filters: Params := [(PageKey, Str("hello"))];
            var r := SearchByKeyword(keyword, filters, Some((ui, config)), searchFilters, sortOptions, index);
            r.Err? && r.error.ValueError?
  {
    var filters: Params := [(PageKey, Str("hello"))];
    assert Get(filters, PageKey) == Some(Str("hello"));
    assert !AllDigits("hello") by { assert !IsDigit("hello"[0]); }
  }

  // ---------------------------------------------------------------------
  // Similarity query

  /** `more_like_this` up to execution: one seed document, the top 6. */
  function MoreLikeThisQuery(docId: string, index: string): (r: Search)
    ensures r.index == index
    ensures r.query.MoreLikeThis? && |r.query.like| == 1
    ensures r.query.like[0].id == docId && r.query.like[0].index == index
    ensures r.window.Some? && r.window.value.start == 0
    ensures r.window.value.stop - r.window.value.start == SimilarResultCount
    ensures r.filters == [] && r.sort.None? && r.aggs == map[]
  {
    NewSearch(index, MoreLikeThis([LikeDoc(index, docId)])).(window := Some(Window(0, SimilarResultCount)))
  }

  // ---------------------------------------------------------------------
  // Result shaping

  /** A client-facing document: the engine's body plus a `meta` entry. */
  type Hit = map<string, Json>

  const MetaKey: string := "meta"
  const FieldNameKey: string := "field_name"

  /** A document as the engine stores it. */
  datatype EngineDoc = EngineDoc(index: string, source: map<string, Json>)

  /** The `meta` block of a fetched document. */
  function MetaBlock(id: string, index: string): Json {
    JObj(map["id" := JStr(id), "index" := JStr(index)])
  }

  /** Ids of the active spotlights, in their stored order. */
  function ActiveSpotlightIds(spotlights: seq<CourseSpotlight>): (ids: seq<string>)
    ensures forall i :: 0 <= i < |ids| ==> exists c :: c in spotlights && c.active && c.courseId == ids[i]
    ensures forall c :: c in spotlights && c.active ==> c.courseId in ids
  {
    var active := Filter(spotlights, (c: CourseSpotlight) => c.active);
    var ids := seq(|active|, i requires 0 <= i < |active| => active[i].courseId);
    assert forall c :: c in spotlights && c.active ==> c.courseId in ids by {
      forall c | c in spotlights && c.active
        ensures c.courseId in ids
      {
        var k :| 0 <= k < |spotlights| && spotlights[k] == c;
        assert c in active;
        var i :| 0 <= i < |active| && active[i] == c;
        assert ids[i] == c.courseId;
      }
    }
    ids
  }

  /** The client-facing form of a fetched document. */
  function SpotlightHit(id: string, doc: EngineDoc): Hit {
    doc.source[MetaKey := MetaBlock(id, doc.index)]
  }

  /** Every id names a stored document. */
  predicate AllFetched(ids: seq<string>, engine: map<string, EngineDoc>) {
    forall i :: 0 <= i < |ids| ==> ids[i] in engine
  }

  /** `hits` is, position by position, the client form of the documents of `ids`. */
  predicate HitsFor(hits: seq<Hit>, ids: seq<string>, engine: map<string, EngineDoc>)
    requires AllFetched(ids, engine)
  {
    |hits| == |ids| && forall i :: 0 <= i < |ids| ==> hits[i] == SpotlightHit(ids[i], engine[ids[i]])
  }

  /** `spotlight_courses`: fetches the active spotlights' documents and
      returns each body with `meta = {id, index}`, in spotlight order.
      `engine` is the outcome of the one `mget` call: the documents the
      index holds, or the error the call raises, which propagates. A
      missing document comes back as None and fails on `to_dict`. */
  method SpotlightCourses(spotlights: seq<CourseSpotlight>, engine: Result<map<string, EngineDoc>, PyError>)
    returns (r: Result<seq<Hit>, PyError>)
    ensures engine.Err? ==> r == Err(engine.error)
    ensures r.Ok? <==> engine.Ok? && AllFetched(ActiveSpotlightIds(spotlights), engine.value)
    ensures r.Ok? ==> HitsFor(r.value, ActiveSpotlightIds(spotlights), engine.value)
  {
    var ids := ActiveSpotlightIds(spotlights);
    if engine.Err? {
      return Err(engine.error);
    }
    r := FetchSpotlights(ids, engine.value);
  }

  /** The fetch-and-convert loop of `spotlight_courses` over the id list. */
  method FetchSpotlights(ids: seq<string>, engine: map<string, EngineDoc>)
    returns (r: Result<seq<Hit>, PyError>)
    ensures r.Ok? <==> AllFetched(ids, engine)
    ensures r.Ok? ==> HitsFor(r.value, ids, engine)
  {
    var result: seq<Hit> := [];
    var i := 0;
    while i < |ids|
      invariant 0 <= i <= |ids|
      invariant forall j :: 0 <= j < i ==> ids[j] in engine
      invariant |result| == i
      invariant forall j :: 0 <= j < i ==> result[j] == SpotlightHit(ids[j], engine[ids[j]])
    {
      if ids[i] !in engine {
        return Err(AttributeError("'NoneType' object has no attribute 'to_dict'"));
      }
      result := result + [SpotlightHit(ids[i], engine[ids[i]])];
      i := i + 1;
    }
    return Ok(result);
  }

  /** No active spotlight: an empty list when the engine answers, not an
      error. */
  method SpotlightCoursesEmpty(spotlights: seq<CourseSpotlight>, engine: Result<map<string, EngineDoc>, PyError>)
    returns (r: Result<seq<Hit>, PyError>)
    requires forall c :: c in spotlights ==> !c.active
    ensures r == if engine.Ok? then Ok([]) else Err(engine.error)
  {
    r := SpotlightCourses(spotlights, engine);
    assert ActiveSpotlightIds(spotlights) == [];
  }

  /** A hit of the engine's response: the document body and its metadata. */
  datatype RawHit = RawHit(source: map<string, Json>, meta: map<string, Json>)

  /** What the engine answers: ranked hits, the total hit count and one
      result object per requested aggregation. */
  datatype RawResponse = RawResponse(
    hits: seq<RawHit>,
    total: int,
    aggregations: map<string, map<string, Json>>)

  /** The client contract. */
  datatype Envelope = Envelope(
    hits: seq<Hit>,
    total: int,
    aggregations: map<string, map<string, Json>>)

  /** The first active filter with this display name. */
  function FirstActiveNamed(fs: seq<SearchFilter>, name: string): (r: Option<SearchFilter>)
    ensures r.Some? ==> r.value in fs && r.value.active && r.value.displayName == name
    ensures r.None? ==> forall f :: f in fs && f.active ==> f.displayName != name
  {
    if |fs| == 0 then None
    else if fs[0].active && fs[0].displayName == name then Some(fs[0])
    else FirstActiveNamed(fs[1..], name)
  }

  /** Position `i` holds the earliest active filter named `name`. */
  predicate FirstActiveAt(fs: seq<SearchFilter>, name: string, i: int)
    requires 0 <= i < |fs|
  {
    && fs[i].active && fs[i].displayName == name
    && forall j :: 0 <= j < i ==> !(fs[j].active && fs[j].displayName == name)
  }

  /** The filter found is the one at the earliest matching position, the
      row `.first()` picks in table order. */
  lemma {:induction false} FirstActiveNamedIsFirst(fs: seq<SearchFilter>, name: string)
    ensures FirstActiveNamed(fs, name).Some? ==>
      exists i :: 0 <= i < |fs| && FirstActiveAt(fs, name, i) && fs[i] == FirstActiveNamed(fs, name).value
    decreases |fs|
  {
    if |fs| > 0 && !(fs[0].active && fs[0].displayName == name) {
      FirstActiveNamedIsFirst(fs[1..], name);
      if FirstActiveNamed(fs, name).Some? {
        var k :| 0 <= k < |fs[1..]| && FirstActiveAt(fs[1..], name, k) && fs[1..][k] == FirstActiveNamed(fs[1..], name).value;
        assert FirstActiveAt(fs, name, k + 1);
      }
    } else if |fs| > 0 {
      assert FirstActiveAt(fs, name, 0);
    }
  }

  predicate HasActiveFilterNamed(fs: seq<SearchFilter>, name: string) {
    exists f :: f in fs && f.active && f.displayName == name
  }

  /** `get_results`: hits keep their order and gain `meta`, the total is the
      engine's, and each aggregation gains the `field_name` of the active
      filter with its display name; a bucket with no such filter fails. */
  function GetResults(response: RawResponse, searchFilters: seq<SearchFilter>): (r: Result<Envelope, PyError>)
    ensures r.Ok? <==> forall key :: key in response.aggregations ==> HasActiveFilterNamed(searchFilters, key)
    ensures r.Ok? ==> |r.value.hits| == |response.hits|
    ensures r.Ok? ==> forall i :: 0 <= i < |response.hits| ==>
      r.value.hits[i] == response.hits[i].source[MetaKey := JObj(response.hits[i].meta)]
    ensures r.Ok? ==> r.value.total == response.total
    ensures r.Ok? ==> r.value.aggregations.Keys == response.aggregations.Keys
    ensures r.Ok? ==> forall key :: key in response.aggregations ==>
      && FirstActiveNamed(searchFilters, key).Some?
      && r.value.aggregations[key]
         == response.aggregations[key][FieldNameKey := JStr(FirstActiveNamed(searchFilters, key).value.fieldName)]
  {
    if exists key :: key in response.aggregations && FirstActiveNamed(searchFilters, key).None? then
      Err(AttributeError("'NoneType' object has no attribute 'field_name'"))
    else
      var hits := seq(|response.hits|, i requires 0 <= i < |response.hits| =>
        response.hits[i].source[MetaKey := JObj(response.hits[i].meta)]);
      var aggs := map key | key in response.aggregations ::
        response.aggregations[key][FieldNameKey := JStr(FirstActiveNamed(searchFilters, key).value.fieldName)];
      Ok(Envelope(hits, response.total, aggs))
  }

  /** With no aggregations requested (the similarity path), shaping never
      fails. */
  lemma ShapingWithoutAggregations(response: RawResponse, searchFilters: seq<SearchFilter>)
    requires response.aggregations == map[]
    ensures GetResults(response, searchFilters).Ok?
    ensures GetResults(response, searchFilters).value.aggregations == map[]
  {
  }

  /** With active filters whose display names are distinct, the bucket for
      each filter is its own. */
  lemma DistinctNamesKeepEveryBucket(fs: seq<SearchFilter>, s: Search)
    requires forall i, j :: 0 <= i < j < |fs| ==> fs[i].displayName != fs[j].displayName
    ensures forall i :: 0 <= i < |fs| ==>
      && fs[i].displayName in AddSearchAggregations(fs, s).aggs
      && AddSearchAggregations(fs, s).aggs[fs[i].displayName] == BucketFor(fs[i])
  {
    LastBucketWins(fs, s);
    forall i | 0 <= i < |fs|
      ensures LastWithName(fs, i)
    {
    }
  }

  /** Shaping succeeds when every bucket the engine answers is named after an
      active filter. */
  lemma ShapingAcceptsRequestedBuckets(fs: seq<SearchFilter>, s: Search, response: RawResponse)
    requires forall i :: 0 <= i < |fs| ==> fs[i].active
    requires s.aggs == map[]
    requires response.aggregations.Keys == AddSearchAggregations(fs, s).aggs.Keys
    ensures GetResults(response, fs).Ok?
  {
    AggregationKeys(fs, s);
    forall key | key in response.aggregations
      ensures HasActiveFilterNamed(fs, key)
    {
      assert NamedIn(fs, key);
      var f :| f in fs && f.displayName == key;
      var i :| 0 <= i < |fs| && fs[i] == f;
    }
  }

  /** Aggregation round trip: when a search requested one bucket per active
      filter and the engine answers exactly those buckets, shaping succeeds
      and labels each bucket with its filter's field, provided active display
      names are unique. */
  lemma AggregationRoundTrip(fs: seq<SearchFilter>, s: Search, response: RawResponse)
    requires forall i :: 0 <= i < |fs| ==> fs[i].active
    requires forall i, j :: 0 <= i < j < |fs| ==> fs[i].displayName != fs[j].displayName
    requires s.aggs == map[]
    requires response.aggregations.Keys == AddSearchAggregations(fs, s).aggs.Keys
    ensures GetResults(response, fs).Ok?
    ensures forall i :: 0 <= i < |fs| ==>
      && fs[i].displayName in GetResults(response, fs).value.aggregations
      && GetResults(response, fs).value.aggregations[fs[i].displayName][FieldNameKey] == JStr(fs[i].fieldName)
  {
    ShapingAcceptsRequestedBuckets(fs, s, response);
    DistinctNamesKeepEveryBucket(fs, s);
    var shaped := GetResults(response, fs).value;
    forall i | 0 <= i < |fs|
      ensures fs[i].displayName in shaped.aggregations
      ensures shaped.aggregations[fs[i].displayName][FieldNameKey] == JStr(fs[i].fieldName)
    {
      var key := fs[i].displayName;
      assert key in response.aggregations;
      var f := FirstActiveNamed(fs, key).value;
      var j :| 0 <= j < |fs| && fs[j] == f;
      assert j == i;
    }
  }
}
