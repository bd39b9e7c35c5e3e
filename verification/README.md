# Experience discovery service core, modelled in Dafny

This project models the core of the experience discovery service (XDS). The
service is a Django back end that builds course-search queries for a search
engine, shapes the engine's answers for the UI and keeps the configuration
that steers both. Each part of that core is written as pure functions (and a
few short methods with loops) over immutable values, with contracts and
lemmas stating what the code promises:

- `queries.dfy` (module `Queries`) models the search helpers:
  - page windows;
  - one aggregation per configured filter;
  - one `terms` clause per request filter;
  - the whitelisted sort;
  - the keyword, similar-course and spotlight searches;
  - the shaping of an engine response into the JSON envelope.
- `views.dfy` (module `SearchViews`) models the three search endpoints:
  - how each reads the query string;
  - which status it answers;
  - which message it carries.
- `xds_utils.dfy` (module `XdsUtils`) models:
  - the spotlight and single-course API URLs;
  - the conversion of stored records to the search engine's format;
  - the saving of experiences.
- `xapi.dfy` (module `Xapi`) models:
  - the verb whitelist for xAPI statements;
  - the two actor shapes;
  - the choice of the account name among token claims.
- `serializers.dfy` (module `Serializers`) models:
  - the filtered and rank-ordered list representations;
  - interest-list creation and update;
  - saved-filter update.
- `middleware.dfy` (module `Middleware`) models the HTTPS redirect that spares the health check.
- `models.dfy` (module `Models`) models the persisted entities, their defaults and validators, and the guards of their `save` methods:
  - the singleton configurations;
  - the course-information mapping;
  - the active-highlight cap;
  - the user manager.

  The store is a value, and a save either returns the next store or an error.
- Supporting modules:
  - `wrappers.dfy`: `Option` and `Result`.
  - `python.dfy`: JSON values, the Python exceptions the code can raise, and truthiness.
  - `strings.dfy`: integer printing and parsing, join and split, ASCII lower-casing.
  - `seqs.dfy`: filtering and subsequences.
  - `ordered_dict.dfy`: insertion-ordered dictionaries. The request parameters are such a dictionary.

The search engine itself is a parameter. For a search, an engine is a
function from the query the code builds to either a raw response or a
transport error. For the spotlight `mget`, it is the outcome of that one
call: the documents the index holds, or the error the call raises. Then:

- what the code sends is stated exactly;
- what it does with any answer is stated for every answer.

Exceptions are `Err` values. A view that catches them answers a 500 with its message; an exception that escapes a view is `Uncaught`.

## Model

| member | source | states |
|---|---|---|
| Queries.PageStart | app/es_api/utils/queries.py:17-25 | Page 1 or below starts at 0; with a non-negative page size the start is never negative. |
| Queries.PageWindowsTile | app/es_api/utils/queries.py:17-25 | Consecutive pages start exactly one page size apart, from 0. The windows tile the result list. |
| Queries.PageWindowsDisjoint | app/es_api/utils/queries.py:17-25 | The window of an earlier page ends at or before the start of any later page. |
| Queries.PageStartExamples | app/es_api/utils/queries.py:17-25 | Page 6 of 8 starts at 40, page 2 of 1 at 1, and page -4 and page 1 start at 0. |
| Queries.AddSearchAggregations | app/es_api/utils/queries.py:28-38 | Only the buckets of the search change. |
| Queries.AggregationNames | app/es_api/utils/queries.py:31-36 | Afterwards the bucket names are exactly the names present before plus every filter's display name. |
| Queries.LastBucketWins | app/es_api/utils/queries.py:31-36 | The last filter with a display name decides that name's bucket: its type over its field name plus `.keyword`. |
| Queries.BucketsOfOtherNamesKept | app/es_api/utils/queries.py:31-36 | A bucket whose name no filter carries is kept unchanged. |
| Queries.SuffixInjective | app/es_api/utils/queries.py:34 | Appending `.keyword` keeps distinct field names distinct. |
| Queries.OriginOfTermsFor | app/es_api/utils/queries.py:49-51 | A `terms` clause records its request key and value, so the request entry can be read back from the clause. |
| Queries.FilterClauses | app/es_api/utils/queries.py:46-51 | Yields at most one clause per request entry. |
| Queries.FilterClausesSound | app/es_api/utils/queries.py:46-51 | Every clause comes from a request entry whose key is neither `page` nor `sort`. |
| Queries.FilterClausesComplete | app/es_api/utils/queries.py:46-51 | Every request entry other than `page` and `sort` yields its clause. |
| Queries.FilterClausesDistinct | app/es_api/utils/queries.py:46-51 | Distinct request keys yield clauses on distinct fields. |
| Queries.AddSearchFilters | app/es_api/utils/queries.py:41-53 | Keeps the existing filters as a prefix and appends exactly the clauses of the request. Nothing else in the search changes. |
| Queries.FilterClausesOfReserved | app/es_api/utils/queries.py:47 | Entries keyed `page` or `sort` yield no clause. |
| Queries.ReservedKeysAddNoFilter | app/es_api/utils/queries.py:41-53 | A request holding only `page` and `sort` leaves the search unchanged. |
| Queries.FindSortOption | app/es_api/utils/queries.py:67-68 | Finds an active sort option with the requested field name, or reports that none exists. |
| Queries.AddSearchSort | app/es_api/utils/queries.py:56-75 | Sorts on key + `.keyword` exactly when the request's `sort` names an active option. Otherwise the search is unchanged. Only the sort ever changes. |
| Queries.ScopedFilters | app/es_api/utils/queries.py:96-97 | Keeps exactly the active filters of the given UI configuration. |
| Queries.PageNumber | app/es_api/utils/queries.py:106 | A missing `page` is a KeyError. The page number is defined exactly when the value parses as an integer, and it is that integer. |
| Queries.KeywordQuery | app/es_api/utils/queries.py:82-108 | Searches the given index with a multi-match of the keyword over the three course text fields. The window is one page size long and starts at `get_page_start` of the page: 0 on page 1 or below, `(page - 1) * size` after. |
| Queries.SearchByKeyword | app/es_api/utils/queries.py:78-114 | With no configuration, the code fails with an AttributeError. Otherwise it succeeds exactly when the page parses and the stored page size is not negative. A page error is passed through. A negative page size is the search library's negative-slice ValueError. On success the query is the keyword query built from the configuration's page size. |
| Queries.SliceBoundsNegative | app/es_api/utils/queries.py:104-108 | A page window has a negative bound exactly when the page size is negative; past page 1 it is the start. |
| Queries.NegativePageSizeRefused | app/es_api/utils/queries.py:104-108 | With a negative stored page size, every keyword search with a valid page fails with the negative-slice ValueError: page 1 and below through the stop, later pages through the start. |
| Queries.KeywordQueryParts | app/es_api/utils/queries.py:91-103 | The query's filters are the request's clauses. Its buckets are those of the UI configuration's active filters. Its sort is the whitelisted request sort. |
| Queries.AggregationsIgnoreSort | app/es_api/utils/queries.py:91-100 | Adding the sort first does not change the buckets the aggregations add. |
| Queries.AggregationKeys | app/es_api/utils/queries.py:28-38 | Starting from no buckets, a bucket name is present exactly when some filter has that display name. |
| Queries.ScopedAggregationKeys | app/es_api/utils/queries.py:96-100 | The buckets are named exactly by the active filters of the UI configuration. |
| Queries.SearchAggregatesActiveFilters | app/es_api/utils/queries.py:94-100 | The keyword query has a bucket for a name exactly when an active filter of its UI configuration has that display name. |
| Queries.SearchFiltersFollowRequest | app/es_api/utils/queries.py:102-103 | The keyword query's filters come from the request and are on distinct fields. Every non-reserved request entry contributes one. |
| Queries.SearchSortIsWhitelisted | app/es_api/utils/queries.py:90-91 | The keyword query is sorted exactly when the request's sort names an active option, and then on that key + `.keyword`. |
| Queries.FirstPageScenario | app/es_api/utils/queries.py:78-108 | A request with only `page` = "1" gives the window from 0 to the page size and no filter clauses. |
| Queries.NonNumericPageFails | app/es_api/utils/queries.py:106 | The page "hello" makes the keyword search fail with a ValueError. |
| Queries.MoreLikeThisQuery | app/es_api/utils/queries.py:117-134 | A more-like-this query on the one document (index, id) in the same index. The window is the first 6 results, with no filters, sort or buckets. |
| Queries.ActiveSpotlightIds | app/es_api/utils/queries.py:144-149 | The ids are exactly the course ids of the active spotlights. |
| Queries.SpotlightCourses | app/es_api/utils/queries.py:141-167 | An error raised by the `mget` call is passed through. Otherwise the call succeeds exactly when the engine holds every active spotlight's document. The hits are then, in order, each document's source with a `meta` block of its id and index. |
| Queries.FetchSpotlights | app/es_api/utils/queries.py:151-165 | Over any id list: the fetch succeeds exactly when every id names a stored document. It then returns, position by position, that document's body with its `meta` block. |
| Queries.SpotlightCoursesEmpty | app/es_api/utils/queries.py:141-167 | With no active spotlight the result is an empty list when `mget` answers, and its error when it raises. |
| Queries.FirstActiveNamed | app/es_api/utils/queries.py:185-186 | Finds an active filter with the display name, or reports that none exists. |
| Queries.GetResults | app/es_api/utils/queries.py:170-196 | Succeeds exactly when every bucket name belongs to an active filter. Then each hit is kept with its meta, the total is copied, and each bucket gains the `field_name` of the first active filter with its display name. |
| Queries.FirstActiveNamedIsFirst | app/es_api/utils/queries.py:185-186 | The filter found is at the earliest position holding an active filter of that name, as `.first()` picks it. |
| Queries.ShapingWithoutAggregations | app/es_api/utils/queries.py:170-196 | A response without buckets is always shaped, with no aggregations. |
| Queries.DistinctNamesKeepEveryBucket | app/es_api/utils/queries.py:28-38 | With distinct display names, every filter's own bucket survives. |
| Queries.ShapingAcceptsRequestedBuckets | app/es_api/utils/queries.py:170-196 | A response whose buckets are the ones the query asked for is always shaped. |
| Queries.AggregationRoundTrip | app/es_api/utils/queries.py:28-38 | Each filter's bucket comes back from `get_results` under its display name, with that filter's field name attached. |
| SearchViews.RunAndShape | app/es_api/views.py:53-54 | Succeeds exactly when the query was built, the engine answered and the answer was shaped, and then gives the shaped answer. |
| SearchViews.ExtractSearchParams | app/es_api/views.py:22-33 | `page` is the `p` parameter when given, else "1". `sort` is present exactly when given. No other key is present. |
| SearchViews.AddConfiguredFilters | app/es_api/views.py:47-51 | A key configured by an active filter and given in the request maps to all of the request's values for it. Every other key is unchanged. |
| SearchViews.SearchParamsFromRequest | app/es_api/views.py:22-51 | The keyword view's parameters hold `page`, the optional `sort` and the configured filters given in the request, and nothing else. |
| SearchViews.SearchIndexView | app/es_api/views.py:19-72 | A missing or empty keyword is exactly the 400 with the missing-keyword message. Every failure is a 500 with the contact-an-administrator message, and nothing escapes. A 200 is answered exactly when the search and its shaping succeed, and its body is that shaped answer. |
| SearchViews.MissingKeywordNeverQueries | app/es_api/views.py:66-72 | Without a keyword the answer does not depend on the engine. |
| SearchViews.MissingConfigurationIsServerError | app/es_api/views.py:53-62 | With a keyword but no configuration, the answer is the 500. |
| SearchViews.MoreLikeThisView | app/es_api/views.py:79-101 | The answer is a 200 or the 500 with the check-the-logs message. It is a 200 exactly when the engine answers and the answer is shaped, and its body is the shaped answer. |
| SearchViews.MoreLikeThisSucceedsWithoutAggregations | app/es_api/views.py:79-101 | An engine answer without buckets gives a 200 with as many hits as the engine returned. |
| SearchViews.CopyIfGiven | app/es_api/views.py:115-117 | A given field is set to the request's last value. Every other field is unchanged. |
| SearchViews.FilterSearchParams | app/es_api/views.py:115-127 | The filters are exactly the three course fields the request gives, each with its last value. |
| SearchViews.FilterSearchPage | app/es_api/views.py:110-113 | The page is 1 when `p` is not given, else `p` parsed as an integer. |
| SearchViews.FiltersView | app/es_api/views.py:107-148 | A non-numeric `p` escapes as a ValueError, since it is read outside the `try`. Otherwise every failure is the 500 with the contact message, there is never a 400. A 200 is answered exactly when the page parses, the filter search answers and the answer is shaped, and it carries the shaped answer. |
| SearchViews.NonNumericFilterPageEscapes | app/es_api/views.py:112-113 | `p` = "two" escapes the view as a ValueError. |
| XdsUtils.JoinIsTerminatedPrefix | app/xds_api/utils/xds_utils.py:25-29 | Adding a comma after each id except the last gives the comma-joined ids. |
| XdsUtils.IdQueryString | app/xds_api/utils/xds_utils.py:23-29 | The query string is `?id=` followed by the ids joined by commas. |
| XdsUtils.SpotlightCoursesApiUrl | app/xds_api/utils/xds_utils.py:16-34 | With no configuration, the code fails with an AttributeError. Otherwise the URL is the XIS API followed by `?id=` and the active course ids joined by commas. |
| XdsUtils.SpotlightIdsReadBack | app/xds_api/utils/xds_utils.py:23-29 | When no id contains a comma, splitting the id list at commas gives back the active ids. |
| XdsUtils.CoursesApiUrl | app/xds_api/utils/xds_utils.py:80-86 | With no configuration, the code fails with an AttributeError. Otherwise the URL is the XIS API followed by the course id. |
| XdsUtils.FormatMetadata | app/xds_api/utils/xds_utils.py:37-55 | A dictionary record without `metadata` gives None. A null, boolean or integer record is a TypeError. A string or list record follows Python's `in` for that type, so it gives None or a TypeError. A result comes only from a record whose `metadata` holds a dictionary `Metadata_Ledger`. |
| XdsUtils.FormatLedgerRecord | app/xds_api/utils/xds_utils.py:37-55 | A missing record id, then a missing key hash, is a KeyError. The result is the ledger plus `Supplemental_Ledger` (or None) and a `meta` block holding the id and hash. |
| XdsUtils.FormatMetadataRestoresLedger | app/xds_api/utils/xds_utils.py:37-55 | Removing the two added keys from the result gives back the ledger, minus those keys. |
| XdsUtils.FormatWithoutLedger | app/xds_api/utils/xds_utils.py:44 | Metadata without `Metadata_Ledger` gives None. |
| XdsUtils.FormatAll | app/xds_api/utils/xds_utils.py:64-71 | Formats a list element by element, in order and with the same length. It fails exactly when some element fails, with that element's error. |
| XdsUtils.MetadataToTarget | app/xds_api/utils/xds_utils.py:58-77 | A list is formatted element-wise and a dictionary is formatted once. Any other document gives None. |
| XdsUtils.SaveExperiences | app/xds_api/utils/xds_utils.py:89-94 | Afterwards the stored experiences are exactly the old ones together with the listed hashes. |
| Xapi.Whitelisted | app/xds_api/xapi.py:19-20 | The test raises exactly when the statement is not a dictionary, when its verb is present but not a dictionary, or when the verb's id is a list or a dictionary. A non-dictionary statement is an AttributeError. |
| Xapi.FilterAllowedStatements | app/xds_api/xapi.py:16-22 | On success the result is exactly the allowed statements, in their original order. |
| Xapi.WhitelistedIsAllowed | app/xds_api/xapi.py:19-20 | Where the membership test does not raise, it holds exactly for a dictionary whose verb is a dictionary whose id is a whitelisted IRI. |
| Seqs.TryFilterOutcome | app/xds_api/xapi.py:16-22 | For any per-item test that may raise and, where it does not, decides a predicate: the loop succeeds exactly when the test raises nowhere, and then keeps exactly the items satisfying the predicate, in order. Otherwise it fails with the error of an item the test raises on. |
| Xapi.FilterAllowedOutcome | app/xds_api/xapi.py:16-22 | Succeeds exactly when no statement makes the test raise, and otherwise fails with the error of one that does. On success the result is the allowed statements, in order. |
| Xapi.FilterAllowedExact | app/xds_api/xapi.py:16-22 | The result is a subsequence of the input. It holds only allowed statements, and every allowed one. |
| Xapi.StatementsWithoutVerbIdDropped | app/xds_api/xapi.py:19 | Every kept statement has a verb with an id. |
| Xapi.FilterAllowedIdempotent | app/xds_api/xapi.py:16-22 | Filtering the filtered list changes nothing. |
| Xapi.ActorWithMbox | app/xds_api/xapi.py:25-29 | An Agent with exactly the keys `objectType` and `mbox`. |
| Xapi.MboxRoundTrip | app/xds_api/xapi.py:25-29 | The mbox is `mailto:` followed by the address, so the address reads back. |
| Xapi.ActorWithAccount | app/xds_api/xapi.py:32-39 | An Agent with exactly `objectType` and an `account` holding exactly `homePage` and `name`. |
| Xapi.AccountRoundTrip | app/xds_api/xapi.py:32-39 | The account reads back as the home page and name, and the actor is never read as an mbox agent. |
| Xapi.JwtAccountName | app/xds_api/xapi.py:46-49 | None exactly when no listed claim is truthy. Otherwise the value of the first listed claim, in field order, that is truthy. |
| Serializers.FilteredSortOptions | app/xds_api/serializers.py:19-21 | The active options, exactly and in stored order. |
| Serializers.FilteredSortOptionsIdempotent | app/xds_api/serializers.py:19-21 | Filtering twice is filtering once. |
| Serializers.InsertByRank | app/xds_api/serializers.py:29 | Inserting into a rank-sorted list keeps it sorted and adds exactly one element. |
| Serializers.SortByRank | app/xds_api/serializers.py:29 | The output is sorted by rank and is a permutation of the input. |
| Serializers.OrderedHighlights | app/xds_api/serializers.py:28-30 | The output is sorted by rank and is a permutation of the active highlights: it holds every active one and only active ones. |
| Serializers.CreateInterestList | app/xds_api/serializers.py:78-84 | Creation fails with an IntegrityError exactly when name, description or owner is missing. Otherwise the list holds those three values, no experiences and no subscribers. |
| Serializers.ApplyScalarUpdate | app/xds_api/serializers.py:87-90 | Each supplied scalar field replaces the stored one, and the others are kept. |
| Serializers.ScalarUpdateIdempotent | app/xds_api/serializers.py:87-90 | Applying an update twice is applying it once, and an empty update changes nothing. |
| Serializers.UpdateInterestList | app/xds_api/serializers.py:86-118 | Without an experience list the update is a TypeError and nothing is written. Otherwise the stored experiences become exactly the supplied ones. With a sender configured, the scalar fields are updated and the message counts the supplied list. Without one, an AttributeError leaves the old scalar fields. |
| Serializers.UpdateSavedFilter | app/xds_api/serializers.py:132-138 | Each supplied field among owner, name and query replaces the stored one. The rest, and the key, are kept. |
| Serializers.SavedFilterUpdatesCompose | app/xds_api/serializers.py:132-138 | Two updates equal one update in which the later supplied values win. An empty update is the identity. |
| Middleware.Decide | app/middleware.py:10-16 | A path under `/health` always passes. Otherwise, with the setting on, a request that is not secure is redirected to an `https://` URL when its host is allowed. If the host is not allowed, `get_host()` raises DisallowedHost, which the framework answers with a 400. Every other request passes. |
| Middleware.RedirectKeepsHostAndPath | app/middleware.py:15-16 | After the scheme, the redirect location is the host followed by the full path. |
| Middleware.DecisionDependsOnlyOnPrefixSettingSchemeAndHost | app/middleware.py:10-16 | Requests alike in health prefix, security and host validity get the same kind of answer. |
| Middleware.HostCheckedOnlyWhenRedirecting | app/middleware.py:11-19 | The host is consulted only on the redirect path: a health check, a secure request or a request with the setting off passes whatever its host. |
| Middleware.RedirectedRequestPasses | app/middleware.py:15-16 | The redirected request, once secure, passes. |
| Middleware.HealthChecksAlwaysPass | app/middleware.py:11-12 | Every path beginning `/health` passes, whatever the setting and scheme. |
| Models.CleanXDSUIConfiguration | app/core/models.py:100-105 | A page size is valid exactly when it is at least 1. |
| Models.CleanCourseDetailHighlight | app/core/models.py:196-219 | A highlight is valid exactly when both names are non-empty and at most 200 characters, the icon is one of the six choices and the rank is at least 1. |
| Models.CleanSearchFilter | app/core/models.py:130-147 | A filter is valid exactly when both names are non-empty and at most 200 characters and the type is `terms`. An empty name is refused with the blank-field message. |
| Models.DefaultsAreValid | app/core/models.py:100-219 | For non-empty names of at most 200 characters, the default records validate: page size 10; an active `terms` filter; an active highlight ranked 1 with the user icon; active sort options and spotlights. |
| Models.SaveSkipsPageSizeValidation | app/core/models.py:100-125 | `save` does not run the validators: a page size below 1, which validation refuses, is stored all the same. |
| Models.SaveXDSConfiguration | app/core/models.py:92-95 | Refused exactly when a record without a key meets an existing configuration. Otherwise the record is written. |
| Models.SaveXDSUIConfiguration | app/core/models.py:106-125 | The same rule for the UI configuration. Past it, a row whose one-to-one link to an XDS configuration is held by another stored row is refused by the unique constraint. Otherwise the row is written. |
| Models.ConfigurationSingletonKept | app/configurations/models.py:24-27 | At most one configuration stays stored. A second new one is refused, and the stored one can be re-saved with new contents. |
| Models.UIConfigurationSingletonKept | app/configurations/models.py:54-57 | The same for the UI configuration. |
| Models.StaleUIKeyMeetsUniqueLink | app/configurations/models.py:38-57 | An instance with a stale key passes the UI guard as well. A second row linked to the same XDS configuration is then refused by the unique link, and one with another link is inserted. |
| Models.StaleKeyPassesSingletonGuard | app/core/models.py:92-95 | The guard checks only that a key is present, so an instance whose key is not stored is inserted as a second configuration. |
| Models.SaveCourseInformationMapping | app/core/models.py:291-299 | The guard refuses exactly when more than one mapping is stored. A mapping for a UI configuration that already has one is refused by the unique link. Otherwise the row is written. |
| Models.SecondMappingRefused | app/configurations/models.py:87-95 | Against one UI configuration, the first mapping is stored and a second new one is refused by the unique link. |
| Models.SaveHighlightAsWritten | app/core/models.py:229-245 | The guard as coded. Below 8 active the row is written. At 8 or more, a save passes exactly when the instance has a key and is active. |
| Models.AsWrittenAdmitsNinthActive | app/core/models.py:229-245 | With 8 active and a stored inactive highlight, re-saving that highlight as active passes, leaving 9 active. |
| Models.AsWrittenRefusesDeactivation | app/core/models.py:239-242 | With 8 active, switching one off is refused as written. The corrected guard allows it, leaving 7. |
| Models.SaveHighlight | app/core/models.py:233-238 | The corrected guard writes the row or refuses it with the max-8 message. |
| Models.ActiveKeysAfterWrite | app/core/models.py:230-231 | Writing a highlight adds its key to the active set or removes it, as its flag says. |
| Models.SaveHighlightKeepsCap | app/core/models.py:233-238 | The corrected guard keeps at most 8 active, and refuses only a write that would exceed 8. |
| Models.SaveCourseDetailHighlight | app/core/models.py:229-245 | With the corrected guard, a save on the store keeps the cap as an invariant and always succeeds below 8 active. |
| Models.CreateUser | app/core/models.py:15-31 | A missing or empty email is a ValueError. The stored email is lower-cased and unique. The flags default to not-staff, not-superuser and active, and the password is usable exactly when given. Creation succeeds exactly when the email is given, non-empty and not yet taken once lower-cased. |
| Models.CreateSuperuser | app/core/models.py:33-48 | An explicit False for staff, then for superuser, is a ValueError. A created superuser is staff and superuser, and active unless told otherwise. Without an explicit False, the result is exactly that of `create_user` with staff and superuser set. |
| Models.SuperuserIsPrivilegedUser | app/core/models.py:33-48 | Without an explicit False, creating a superuser succeeds exactly when creating a user would. The user is then the same one with both privileges, and its email, in any case, is taken afterwards. |
| Models.EmailsDifferingInCaseCollide | app/core/models.py:26 | Two emails equal up to ASCII case cannot both be created. |

## Left out

- Running queries against the search engine, the engine's own matching and ranking, and HTTP calls to the XIS. The engine is a parameter: the model states what the code sends and how it treats every answer, transport errors included.
- The Django ORM and database: ordering, transactions, sequences and cascades. Tables are maps from positive keys, and inserts get a fresh key.
- `ORDER BY rank` ties. The database's order among equal ranks is unspecified, and SortByRank picks one stable order.
- `json.dumps`/`json.loads` text: documents are modelled as parsed JSON values, and a response body by its value or message only.
- Logging, sending e-mail, the e-mail verification hook on user save, and password hashing. A password is modelled only as given or not.
- `jwt.decode` and reading the `Bearer` header: JwtAccountName models the selection over an already decoded payload.
- Python `int()`: leading and trailing whitespace, underscores and non-ASCII digits are not modelled. ParseInt accepts an optional sign and ASCII digits.
- `str.lower()` beyond ASCII: Lower folds only A–Z.
- JSON floating-point numbers: documents and request bodies are modelled with integers, strings, booleans, null, lists and objects only.
- The database's integer column width: `search_results_per_page` and `rank` are bounded integer columns, while the model uses unbounded integers. A value outside the column's range, refused by the database, is accepted by the model's saves.
- `skip_empty=True` when a spotlight document is turned into a dictionary: empty fields are kept.
- Queries.SpotlightCourses: a spotlight whose document is missing is an error. With `missing='none'` the code would go on to read a None document and raise.
- `search_by_filters`: the view module imports it from `es_api.utils.queries` (app/es_api/views.py:7-8), but that module does not define it, so as written the import itself fails and no view of the module can be served. SearchViews.FiltersView models the view as if the import resolved, and takes the filter search as a parameter.
- Queries.AddSearchAggregations: the bucket's aggregation type is taken as stored. The search library's `A()` raises for a type it does not know; a type outside the `terms` choice is refused only by validation, which `save` does not run, so such a stored filter would make the keyword search raise.
- Models.SaveXDSUIConfiguration: the one-to-one link's reference to an existing XDS configuration (the foreign key) is not checked, and neither is any cascade on delete.
- A `sort` value that is a list. A request yields a single string, and the model treats a non-string value as no sort.
- Python aliasing: `format_metadata` mutates the ledger dictionary in place. The model returns a new value, and callers cannot observe the difference.
- The field projection of the model serializers (`fields = [...]`), the serializers' validation, and SavedFilterSerializer.create, which passes the validated data straight to the ORM.
- SearchViews.SearchIndexView: a missing configuration and a missing UI configuration are both modelled as no configuration (`None`). Both raise inside the `try` and give the same 500.
- The configurations app's views and the other apps' views, URLs, admin and migrations: they are outside this core.
- Models.SaveCourseInformationMapping: the database's unique constraint is modelled as an IntegrityError against rows already stored, not against concurrent inserts.

## Findings

| source | as written | input that shows it | evidently intended | confidence | as-written member | corrected member |
|---|---|---|---|---|---|---|
| app/core/models.py:229-245 | With 8 or more active highlights, the `elif self.active is False` branch, commented as updating an old record to active, refuses every inactive save. Its `else` lets a stored record that is being activated through. | 8 active highlights plus a stored inactive one (key 9), saved with `active=True`: the save passes and 9 are active. With 8 active, saving key 1 with `active=False` is refused. | At most 8 highlights active. A save is refused only when it would add a ninth. | not executed | Models.SaveHighlightAsWritten, Models.AsWrittenAdmitsNinthActive, Models.AsWrittenRefusesDeactivation | Models.SaveHighlight, Models.SaveHighlightKeepsCap, Models.SaveCourseDetailHighlight |
