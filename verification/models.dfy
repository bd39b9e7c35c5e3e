/** The configuration store of the discovery service: the persisted entities
    of the core and configurations apps, their field defaults and validators,
    and the guards their `save` methods apply. The store is a value; every
    save is a transition that either yields the next store or an error. */
module Models {
  import opened Wrappers
  import opened Python
  import opened Strings

  // ---------------------------------------------------------------------
  // Field defaults and validator bounds

  const DefaultTargetXisMetadataApi: string := "http://localhost:8080/api/metadata/"
  const DefaultSearchResultsPerPage: int := 10
  const MinSearchResultsPerPage: int := 1
  const DefaultFilterType: string := "terms"
  const FilterTypeChoices: seq<string> := ["terms"]
  const DefaultHighlightIcon: string := "user"
  const HighlightIconChoices: seq<string> :=
    ["clock", "hourglass", "user", "multi_users", "location", "calendar"]
  const DefaultRank: int := 1
  const MinRank: int := 1
  const MaxCharField: nat := 200
  const MaxActiveHighlights: nat := 8

  // ---------------------------------------------------------------------
  // Entities (primary keys live in the tables, not in the records)

  datatype XDSConfiguration = XDSConfiguration(targetXisMetadataApi: string)

  datatype XDSUIConfiguration = XDSUIConfiguration(
    searchResultsPerPage: int,
    xdsConfiguration: Pk)

  datatype SearchFilter = SearchFilter(
    displayName: string,
    fieldName: string,
    xdsUIConfiguration: Pk,
    filterType: string,
    active: bool)

  datatype SearchSortOption = SearchSortOption(
    displayName: string,
    fieldName: string,
    xdsUIConfiguration: Pk,
    active: bool)

  datatype CourseDetailHighlight = CourseDetailHighlight(
    displayName: string,
    fieldName: string,
    xdsUIConfiguration: Pk,
    active: bool,
    highlightIcon: string,
    rank: int)

  datatype CourseSpotlight = CourseSpotlight(courseId: string, active: bool)

  datatype CourseInformationMapping = CourseInformationMapping(
    courseTitle: string,
    courseDescription: string,
    courseUrl: string,
    xdsUIConfiguration: Pk)

  datatype XDSUser = XDSUser(
    email: string,
    isStaff: bool,
    isSuperuser: bool,
    isActive: bool,
    usablePassword: bool)

  // ---------------------------------------------------------------------
  // Records built with only the required fields take these defaults

  function NewXDSConfiguration(): (c: XDSConfiguration) {
    XDSConfiguration(DefaultTargetXisMetadataApi)
  }

  function NewXDSUIConfiguration(xdsConfiguration: Pk): XDSUIConfiguration {
    XDSUIConfiguration(DefaultSearchResultsPerPage, xdsConfiguration)
  }

  function NewSearchFilter(displayName: string, fieldName: string, ui: Pk): SearchFilter {
    SearchFilter(displayName, fieldName, ui, DefaultFilterType, true)
  }

  function NewSearchSortOption(displayName: string, fieldName: string, ui: Pk): SearchSortOption {
    SearchSortOption(displayName, fieldName, ui, true)
  }

  function NewCourseDetailHighlight(displayName: string, fieldName: string, ui: Pk): CourseDetailHighlight {
    CourseDetailHighlight(displayName, fieldName, ui, true, DefaultHighlightIcon, DefaultRank)
  }

  function NewCourseSpotlight(courseId: string): CourseSpotlight {
    CourseSpotlight(courseId, true)
  }

  // ---------------------------------------------------------------------
  // Field validation run by `full_clean` (not by `save`)

  /** The min-value validator on `search_results_per_page`. */
  function CleanXDSUIConfiguration(c: XDSUIConfiguration): (r: Result<XDSUIConfiguration, PyError>)
    ensures r.Ok? <==> c.searchResultsPerPage >= MinSearchResultsPerPage
    ensures r.Ok? ==> r.value == c
  {
    if c.searchResultsPerPage < MinSearchResultsPerPage
    then Err(ValidationError("results per page should be at least 1"))
    else Ok(c)
  }

  /** A required text field (`blank=False`, the default) refuses the empty
      string before any other validator runs. */
  const BlankMessage: string := "This field cannot be blank."

  /** Blank, length, choice and min-value validators of a highlight. */
  function CleanCourseDetailHighlight(h: CourseDetailHighlight): (r: Result<CourseDetailHighlight, PyError>)
    ensures r.Ok? <==>
      && 1 <= |h.displayName| <= MaxCharField
      && 1 <= |h.fieldName| <= MaxCharField
      && h.highlightIcon in HighlightIconChoices
      && h.rank >= MinRank
    ensures h.displayName == "" || h.fieldName == "" ==> r == Err(ValidationError(BlankMessage))
    ensures r.Ok? ==> r.value == h
  {
    if h.displayName == "" || h.fieldName == ""
    then Err(ValidationError(BlankMessage))
    else if |h.displayName| > MaxCharField || |h.fieldName| > MaxCharField
    then Err(ValidationError("Ensure this value has at most 200 characters"))
    else if h.highlightIcon !in HighlightIconChoices
    then Err(ValidationError("Value is not a valid choice"))
    else if h.rank < MinRank
    then Err(ValidationError("rank shoud be at least 1"))
    else Ok(h)
  }

  /** Blank, length and choice validators of a search filter. */
  function CleanSearchFilter(f: SearchFilter): (r: Result<SearchFilter, PyError>)
    ensures r.Ok? <==>
      1 <= |f.displayName| <= MaxCharField && 1 <= |f.fieldName| <= MaxCharField && f.filterType in FilterTypeChoices
    ensures f.displayName == "" || f.fieldName == "" ==> r == Err(ValidationError(BlankMessage))
  {
    if f.displayName == "" || f.fieldName == ""
    then Err(ValidationError(BlankMessage))
    else if |f.displayName| > MaxCharField || |f.fieldName| > MaxCharField
    then Err(ValidationError("Ensure this value has at most 200 characters"))
    else if f.filterType !in FilterTypeChoices
    then Err(ValidationError("Value is not a valid choice"))
    else Ok(f)
  }

  /** Every record built from its defaults passes validation; in particular
      a page holds 10 results, a highlight ranks 1, is active and shows the
      user icon, and a filter is an active `terms` filter. */
  lemma DefaultsAreValid(displayName: string, fieldName: string, ui: Pk, courseId: string)
    requires 1 <= |displayName| <= MaxCharField && 1 <= |fieldName| <= MaxCharField
    ensures CleanXDSUIConfiguration(NewXDSUIConfiguration(ui)).Ok?
    ensures NewXDSUIConfiguration(ui).searchResultsPerPage == 10
    ensures CleanCourseDetailHighlight(NewCourseDetailHighlight(displayName, fieldName, ui)).Ok?
    ensures NewCourseDetailHighlight(displayName, fieldName, ui).rank == 1
    ensures NewCourseDetailHighlight(displayName, fieldName, ui).active
    ensures CleanSearchFilter(NewSearchFilter(displayName, fieldName, ui)).Ok?
    ensures NewSearchFilter(displayName, fieldName, ui).filterType == "terms"
    ensures NewSearchFilter(displayName, fieldName, ui).active
    ensures NewSearchSortOption(displayName, fieldName, ui).active
    ensures NewCourseSpotlight(courseId).active
  {
  }


  // ---------------------------------------------------------------------
  // Tables

  /** A primary key: Django's automatic keys start at 1, so a saved
      record's `pk` is always truthy. */
  type Pk = k: nat | k >= 1 witness 1

  /** One table: its rows by primary key and the key the next insert gets. */
  datatype Table<T> = Table(rows: map<Pk, T>, nextPk: Pk)

  ghost predicate WellFormed<T>(t: Table<T>) {
    forall k :: k in t.rows ==> k < t.nextPk
  }

  function EmptyTable<T>(): (t: Table<T>)
    ensures WellFormed(t) && |t.rows| == 0
  {
    Table(map[], 1)
  }

  /** The key a save writes to: the instance's own key when it has one
      (Django updates that row, or inserts it when absent), else a fresh one. */
  function KeyFor<T>(t: Table<T>, pk: Option<Pk>): Pk {
    if pk.Some? then pk.value else t.nextPk
  }

  /** The row write `Model.save()` performs once its guard has passed. */
  function Write<T>(t: Table<T>, pk: Option<Pk>, v: T): (r: Table<T>)
    ensures r.rows == t.rows[KeyFor(t, pk) := v]
    ensures WellFormed(t) ==> WellFormed(r)
    ensures WellFormed(t) && pk.None? ==> KeyFor(t, pk) !in t.rows && |r.rows| == |t.rows| + 1
    ensures pk.Some? && pk.value in t.rows ==> |r.rows| == |t.rows|
  {
    var k := KeyFor(t, pk);
    Table(t.rows[k := v], if k < t.nextPk then t.nextPk else k + 1)
  }

  /** The persisted state the admission rules consult. */
  datatype Store = Store(
    configurations: Table<XDSConfiguration>,
    uiConfigurations: Table<XDSUIConfiguration>,
    highlights: Table<CourseDetailHighlight>,
    mappings: Table<CourseInformationMapping>,
    users: map<string, XDSUser>)

  // ---------------------------------------------------------------------
  // Singleton configurations

  /** `XDSConfiguration.save`: a record without a primary key may not be
      created while any configuration exists. */
  function SaveXDSConfiguration(s: Store, pk: Option<Pk>, c: XDSConfiguration): (r: Result<Store, PyError>)
    ensures r.Err? <==> pk.None? && |s.configurations.rows| > 0
    ensures r.Err? ==> r.error == ValidationError("XDSConfiguration model already exists")
    ensures r.Ok? ==> r.value == s.(configurations := Write(s.configurations, pk, c))
  {
    if pk.None? && |s.configurations.rows| > 0
    then Err(ValidationError("XDSConfiguration model already exists"))
    else Ok(s.(configurations := Write(s.configurations, pk, c)))
  }

  /** Another stored UI configuration, not the row this save writes to,
      already holds the one-to-one link to XDS configuration `target`. */
  predicate UILinkTaken(t: Table<XDSUIConfiguration>, pk: Option<Pk>, target: Pk) {
    exists k :: k in t.rows && k != KeyFor(t, pk) && t.rows[k].xdsConfiguration == target
  }

  /** `XDSUIConfiguration.save`: the same rule for the UI configuration;
      past the guard, the database's unique constraint on the one-to-one
      link to the XDS configuration refuses a second row for the same one. */
  function SaveXDSUIConfiguration(s: Store, pk: Option<Pk>, c: XDSUIConfiguration): (r: Result<Store, PyError>)
    ensures (r.Err? && r.error.ValidationError?) <==> pk.None? && |s.uiConfigurations.rows| > 0
    ensures r.Err? && r.error.ValidationError? ==> r.error == ValidationError("XDSUIConfiguration model already exists")
    ensures (r.Err? && r.error.IntegrityError?) <==>
      !(pk.None? && |s.uiConfigurations.rows| > 0) && UILinkTaken(s.uiConfigurations, pk, c.xdsConfiguration)
    ensures r.Ok? ==> r.value == s.(uiConfigurations := Write(s.uiConfigurations, pk, c))
  {
    if pk.None? && |s.uiConfigurations.rows| > 0
    then Err(ValidationError("XDSUIConfiguration model already exists"))
    else if UILinkTaken(s.uiConfigurations, pk, c.xdsConfiguration)
    then Err(IntegrityError("duplicate key value violates unique constraint"))
    else Ok(s.(uiConfigurations := Write(s.uiConfigurations, pk, c)))
  }

  /** The singleton rule holds across saves that create a configuration or
      update the existing one; a second one is refused and the existing one
      can be re-saved with new contents. */
  lemma ConfigurationSingletonKept(s: Store, pk: Option<Pk>, c: XDSConfiguration)
    requires WellFormed(s.configurations) && |s.configurations.rows| <= 1
    requires pk.None? || pk.value in s.configurations.rows
    ensures SaveXDSConfiguration(s, pk, c).Ok? ==> |SaveXDSConfiguration(s, pk, c).value.configurations.rows| <= 1
    ensures |s.configurations.rows| == 1 && pk.None? ==> SaveXDSConfiguration(s, pk, c).Err?
    ensures pk.Some? ==>
      SaveXDSConfiguration(s, pk, c).Ok? && SaveXDSConfiguration(s, pk, c).value.configurations.rows[pk.value] == c
  {
  }

  /** The same two facts for the UI configuration. */
  lemma UIConfigurationSingletonKept(s: Store, pk: Option<Pk>, c: XDSUIConfiguration)
    requires WellFormed(s.uiConfigurations) && |s.uiConfigurations.rows| <= 1
    requires pk.None? || pk.value in s.uiConfigurations.rows
    ensures SaveXDSUIConfiguration(s, pk, c).Ok? ==> |SaveXDSUIConfiguration(s, pk, c).value.uiConfigurations.rows| <= 1
    ensures |s.uiConfigurations.rows| == 1 && pk.None? ==> SaveXDSUIConfiguration(s, pk, c).Err?
    ensures pk.Some? ==>
      SaveXDSUIConfiguration(s, pk, c).Ok? && SaveXDSUIConfiguration(s, pk, c).value.uiConfigurations.rows[pk.value] == c
  {
    if pk.Some? {
      OnlyKey(s.uiConfigurations.rows, pk.value);
    }
  }

  /** A key of a table with at most one row is its only key. */
  lemma OnlyKey<T>(rows: map<Pk, T>, x: Pk)
    requires x in rows && |rows| <= 1
    ensures forall k :: k in rows ==> k == x
  {
    forall k | k in rows
      ensures k == x
    {
      if k != x {
        assert {k, x} <= rows.Keys;
        assert |{k, x}| == 2;
        SubsetCardinality({k, x}, rows.Keys);
      }
    }
  }

  lemma {:induction false} SubsetCardinality<T>(a: set<T>, b: set<T>)
    requires a <= b
    ensures |a| <= |b|
    decreases |b|
  {
    if b != {} {
      var x :| x in b;
      SubsetCardinality(a - {x}, b - {x});
    }
  }

  /** The guard looks only at whether the instance carries a key: an
      instance with a key that is not (or no longer) stored is inserted next
      to the existing configuration. */
  lemma StaleKeyPassesSingletonGuard(c0: XDSConfiguration, c: XDSConfiguration)
    ensures var s := Store(Table(map[1 := c0], 2), EmptyTable(), EmptyTable(), EmptyTable(), map[]);
            var r := SaveXDSConfiguration(s, Some(5), c);
            r.Ok? && |r.value.configurations.rows| == 2
  {
    var s := Store(Table(map[1 := c0], 2), EmptyTable(), EmptyTable(), EmptyTable(), map[]);
    var r := SaveXDSConfiguration(s, Some(5), c);
    assert r.value.configurations.rows == map[1 := c0, 5 := c];
    assert r.value.configurations.rows.Keys == {1, 5};
  }

  /** The UI configuration's guard has the same gap, but there the unique
      link closes it for a second row tied to the same XDS configuration;
      a stale key carrying a different link is still inserted. */
  lemma StaleUIKeyMeetsUniqueLink(u0: XDSUIConfiguration, c: XDSUIConfiguration)
    ensures var s := Store(EmptyTable(), Table(map[1 := u0], 2), EmptyTable(), EmptyTable(), map[]);
            var r := SaveXDSUIConfiguration(s, Some(5), c);
            && (c.xdsConfiguration == u0.xdsConfiguration ==>
                  r == Err(IntegrityError("duplicate key value violates unique constraint")))
            && (c.xdsConfiguration != u0.xdsConfiguration ==> r.Ok? && |r.value.uiConfigurations.rows| == 2)
  {
    var s := Store(EmptyTable(), Table(map[1 := u0], 2), EmptyTable(), EmptyTable(), map[]);
    var r := SaveXDSUIConfiguration(s, Some(5), c);
    if c.xdsConfiguration == u0.xdsConfiguration {
      assert 1 in s.uiConfigurations.rows && 1 != KeyFor(s.uiConfigurations, Some(5));
    } else {
      assert r.value.uiConfigurations.rows == map[1 := u0, 5 := c];
      assert r.value.uiConfigurations.rows.Keys == {1, 5};
    }
  }

  /** `save` does not run the field validators: a UI configuration with a
      page size below 1, which validation refuses, is stored all the same
      (and later makes the keyword search slice with a negative bound). */
  lemma SaveSkipsPageSizeValidation(s: Store, c: XDSUIConfiguration)
    requires |s.uiConfigurations.rows| == 0 && c.searchResultsPerPage < MinSearchResultsPerPage
    ensures CleanXDSUIConfiguration(c).Err?
    ensures SaveXDSUIConfiguration(s, None, c).Ok?
    ensures SaveXDSUIConfiguration(s, None, c).value.uiConfigurations.rows[KeyFor(s.uiConfigurations, None)] == c
  {
  }

  // ---------------------------------------------------------------------
  // Course information mapping

  /** `CourseInformationMapping.save`: refused when more than one mapping is
      stored; otherwise the one-to-one link to the UI configuration must not
      be taken by another row (the database's unique constraint). */
  function SaveCourseInformationMapping(s: Store, pk: Option<Pk>, m: CourseInformationMapping): (r: Result<Store, PyError>)
    ensures (r.Err? && r.error.ValidationError?) <==> |s.mappings.rows| > 1
    ensures (r.Err? && r.error.IntegrityError?) <==>
      |s.mappings.rows| <= 1 &&
      exists k :: k in s.mappings.rows && k != KeyFor(s.mappings, pk) &&
        s.mappings.rows[k].xdsUIConfiguration == m.xdsUIConfiguration
    ensures r.Ok? ==> r.value == s.(mappings := Write(s.mappings, pk, m))
  {
    if |s.mappings.rows| > 1 then
      Err(ValidationError("Max of 1 active highlight fields has been reached."))
    else if exists k :: (k in s.mappings.rows && k != KeyFor(s.mappings, pk) &&
                         s.mappings.rows[k].xdsUIConfiguration == m.xdsUIConfiguration) then
      Err(IntegrityError("duplicate key value violates unique constraint"))
    else
      Ok(s.(mappings := Write(s.mappings, pk, m)))
  }

  /** With one UI configuration, the first mapping for it is stored and a
      second new one is refused by the unique constraint, not by the guard. */
  lemma SecondMappingRefused(s: Store, m1: CourseInformationMapping, m2: CourseInformationMapping)
    requires WellFormed(s.mappings) && |s.mappings.rows| == 0
    requires m1.xdsUIConfiguration == m2.xdsUIConfiguration
    ensures SaveCourseInformationMapping(s, None, m1).Ok?
    ensures var s1 := SaveCourseInformationMapping(s, None, m1).value;
            SaveCourseInformationMapping(s1, None, m2) == Err(IntegrityError("duplicate key value violates unique constraint"))
  {
    var s1 := SaveCourseInformationMapping(s, None, m1).value;
    var k1 := KeyFor(s.mappings, None);
    assert k1 in s1.mappings.rows && k1 != KeyFor(s1.mappings, None);
  }

  // ---------------------------------------------------------------------
  // Course detail highlights

  function ActiveKeys(rows: map<Pk, CourseDetailHighlight>): set<Pk> {
    set k | k in rows && rows[k].active
  }

  function ActiveCount(rows: map<Pk, CourseDetailHighlight>): nat {
    |ActiveKeys(rows)|
  }

  /** The guard of `CourseDetailHighlight.save` as the code has it: with 8 or
      more active highlights stored, only an already persisted record marked
      active is written. */
  function SaveHighlightAsWritten(t: Table<CourseDetailHighlight>, pk: Option<Pk>, h: CourseDetailHighlight)
    : (r: Result<Table<CourseDetailHighlight>, PyError>)
    ensures ActiveCount(t.rows) < MaxActiveHighlights ==> r == Ok(Write(t, pk, h))
    ensures ActiveCount(t.rows) >= MaxActiveHighlights ==> (r.Ok? <==> pk.Some? && h.active)
    ensures r.Ok? ==> r.value == Write(t, pk, h)
  {
    if ActiveCount(t.rows) >= MaxActiveHighlights then
      if pk.None? && h.active then Err(ValidationError("Max of 8 active highlight fields has been reached."))
      else if !h.active then Err(ValidationError("Max of 8 active highlight fields has been reached."))
      else Ok(Write(t, pk, h))
    else Ok(Write(t, pk, h))
  }

  /** Activating a stored inactive highlight while 8 are active passes the
      guard as written and leaves 9 active highlights. */
  lemma AsWrittenAdmitsNinthActive(h: CourseDetailHighlight)
    requires h.active
    ensures var t := NinthActivationTable(h);
            var r := SaveHighlightAsWritten(t, Some(9), h);
            ActiveCount(t.rows) == 8 && r.Ok? && ActiveCount(r.value.rows) == 9
  {
    var t := NinthActivationTable(h);
    EightActiveInNinthTable(h);
    ActiveKeysAfterWrite(t, Some(9), h);
    assert 9 !in ActiveKeys(t.rows);
  }

  /** The other half of the same guard: while 8 are active, switching one of
      them off is refused as written, although it would lower the count; the
      corrected guard lets it through. */
  lemma AsWrittenRefusesDeactivation(h: CourseDetailHighlight)
    requires h.active
    ensures var t := NinthActivationTable(h);
            var off := h.(active := false);
            && SaveHighlightAsWritten(t, Some(1), off).Err?
            && SaveHighlight(t, Some(1), off) == Ok(Write(t, Some(1), off))
            && ActiveCount(Write(t, Some(1), off).rows) == 7
  {
    var t := NinthActivationTable(h);
    var off := h.(active := false);
    EightActiveInNinthTable(h);
    ActiveKeysAfterWrite(t, Some(1), off);
    assert 1 in ActiveKeys(t.rows);
  }

  /** Keys 1 to 8 are the active ones of that table. */
  lemma EightActiveInNinthTable(h: CourseDetailHighlight)
    requires h.active
    ensures ActiveKeys(NinthActivationTable(h).rows) == {1, 2, 3, 4, 5, 6, 7, 8}
    ensures ActiveCount(NinthActivationTable(h).rows) == 8
  {
    var rows := NinthActivationTable(h).rows;
    forall k | k in ActiveKeys(rows)
      ensures k in {1, 2, 3, 4, 5, 6, 7, 8}
    {
      assert k in rows.Keys && k != 9;
    }
    assert ActiveKeys(rows) == {1, 2, 3, 4, 5, 6, 7, 8};
  }

  /** Eight active highlights (keys 1 to 8) and one inactive one (key 9). */
  function NinthActivationTable(h: CourseDetailHighlight): (t: Table<CourseDetailHighlight>)
    requires h.active
    ensures WellFormed(t) && 9 in t.rows && !t.rows[9].active
  {
    var off := h.(active := false);
    Table(map[1 := h, 2 := h, 3 := h, 4 := h, 5 := h, 6 := h, 7 := h, 8 := h, 9 := off], 10)
  }

  /** Whether the row the save writes to is already an active highlight. */
  predicate StoredActive(t: Table<CourseDetailHighlight>, pk: Option<Pk>) {
    KeyFor(t, pk) in t.rows && t.rows[KeyFor(t, pk)].active
  }

  /** The cap the guard is meant to enforce: a save is refused exactly when
      it would add an active highlight to 8 (or more) active ones. */
  function SaveHighlight(t: Table<CourseDetailHighlight>, pk: Option<Pk>, h: CourseDetailHighlight)
    : (r: Result<Table<CourseDetailHighlight>, PyError>)
    ensures r.Ok? ==> r.value == Write(t, pk, h)
    ensures r.Err? ==> r.error == ValidationError("Max of 8 active highlight fields has been reached.")
  {
    if h.active && !StoredActive(t, pk) && ActiveCount(t.rows) >= MaxActiveHighlights
    then Err(ValidationError("Max of 8 active highlight fields has been reached."))
    else Ok(Write(t, pk, h))
  }

  /** How a write changes the set of active keys. */
  lemma ActiveKeysAfterWrite(t: Table<CourseDetailHighlight>, pk: Option<Pk>, h: CourseDetailHighlight)
    ensures var k := KeyFor(t, pk);
            ActiveKeys(Write(t, pk, h).rows) ==
              if h.active then ActiveKeys(t.rows) + {k} else ActiveKeys(t.rows) - {k}
  {
  }

  /** The corrected guard keeps at most 8 highlights active, and refuses a
      save only when writing it would exceed that. */
  lemma {:induction false} SaveHighlightKeepsCap(t: Table<CourseDetailHighlight>, pk: Option<Pk>, h: CourseDetailHighlight)
    ensures ActiveCount(t.rows) <= MaxActiveHighlights && SaveHighlight(t, pk, h).Ok? ==>
      ActiveCount(SaveHighlight(t, pk, h).value.rows) <= MaxActiveHighlights
    ensures SaveHighlight(t, pk, h).Err? ==> ActiveCount(Write(t, pk, h).rows) > MaxActiveHighlights
  {
    var k := KeyFor(t, pk);
    var before := ActiveKeys(t.rows);
    var after := ActiveKeys(Write(t, pk, h).rows);
    ActiveKeysAfterWrite(t, pk, h);
    if h.active {
      if k in before {
        assert after == before;
      } else {
        assert |after| == |before| + 1;
        if !StoredActive(t, pk) && |before| < MaxActiveHighlights {
          assert SaveHighlight(t, pk, h).Ok?;
        }
      }
    } else {
      assert after <= before;
    }
  }

  /** The cap as a store invariant. */
  ghost predicate HighlightCapHolds(s: Store) {
    ActiveCount(s.highlights.rows) <= MaxActiveHighlights
  }

  /** `CourseDetailHighlight.save` on the store, with the corrected guard. */
  function SaveCourseDetailHighlight(s: Store, pk: Option<Pk>, h: CourseDetailHighlight): (r: Result<Store, PyError>)
    ensures HighlightCapHolds(s) && r.Ok? ==> HighlightCapHolds(r.value)
    ensures r.Ok? ==> r.value == s.(highlights := Write(s.highlights, pk, h))
    ensures ActiveCount(s.highlights.rows) < MaxActiveHighlights ==> r.Ok?
  {
    SaveHighlightKeepsCap(s.highlights, pk, h);
    var t :- SaveHighlight(s.highlights, pk, h);
    Ok(s.(highlights := t))
  }

  // ---------------------------------------------------------------------
  // Users

  /** The flags a caller may pass to the user manager; None means omitted. */
  datatype UserFlags = UserFlags(isStaff: Option<bool>, isSuperuser: Option<bool>, isActive: Option<bool>)

  /** `XDSUserProfileManager.create_user`: an email is required, it is stored
      lower-cased, and it must not belong to a stored user. */
  function CreateUser(s: Store, email: Option<string>, password: Option<string>, flags: UserFlags)
    : (r: Result<(Store, XDSUser), PyError>)
    ensures email.None? || email.value == "" ==> r == Err(ValueError("Email is required"))
    ensures r.Ok? ==> email.Some? && r.value.1.email == Lower(email.value) && r.value.1.email != ""
    ensures r.Ok? ==> r.value.0 == s.(users := s.users[r.value.1.email := r.value.1])
    ensures r.Ok? ==> Lower(email.value) !in s.users
    ensures r.Ok? ==> (&& r.value.1.isStaff == flags.isStaff.GetOr(false)
                       && r.value.1.isSuperuser == flags.isSuperuser.GetOr(false)
                       && r.value.1.isActive == flags.isActive.GetOr(true)
                       && r.value.1.usablePassword == password.Some?)
    ensures email.Some? && email.value != "" && Lower(email.value) in s.users ==> r.Err? && r.error.IntegrityError?
    ensures r.Ok? <==> email.Some? && email.value != "" && Lower(email.value) !in s.users
  {
    if email.None? || email.value == "" then Err(ValueError("Email is required"))
    else
      var lowered := Lower(email.value);
      var user := XDSUser(lowered, flags.isStaff.GetOr(false), flags.isSuperuser.GetOr(false),
                          flags.isActive.GetOr(true), password.Some?);
      if lowered in s.users then Err(IntegrityError("duplicate key value violates unique constraint"))
      else Ok((s.(users := s.users[lowered := user]), user))
  }

  /** `XDSUserProfileManager.create_superuser`: the three flags default to
      True, and an explicit False for staff or superuser is refused. */
  function CreateSuperuser(s: Store, email: Option<string>, password: Option<string>, flags: UserFlags)
    : (r: Result<(Store, XDSUser), PyError>)
    ensures flags.isStaff == Some(false) ==> r == Err(ValueError("Superuser must be assigned to is_staff=True."))
    ensures flags.isStaff != Some(false) && flags.isSuperuser == Some(false) ==>
      r == Err(ValueError("Superuser must be assigned to is_superuser=True."))
    ensures r.Ok? ==> r.value.1.isStaff && r.value.1.isSuperuser
    ensures r.Ok? ==> r.value.1.isActive == flags.isActive.GetOr(true)
    ensures flags.isStaff != Some(false) && flags.isSuperuser != Some(false) ==>
      r == CreateUser(s, email, password, UserFlags(Some(true), Some(true), Some(flags.isActive.GetOr(true))))
  {
    var staff := flags.isStaff.GetOr(true);
    var superuser := flags.isSuperuser.GetOr(true);
    var active := flags.isActive.GetOr(true);
    if !staff then Err(ValueError("Superuser must be assigned to is_staff=True."))
    else if !superuser then Err(ValueError("Superuser must be assigned to is_superuser=True."))
    else CreateUser(s, email, password, UserFlags(Some(staff), Some(superuser), Some(active)))
  }

  /** A superuser is an ordinary user with both privileges set: with no
      explicit False, creating one succeeds exactly when creating a user
      with the same flags would, yields that user with both privileges,
      and stores it, so its email (in any case) is then taken. */
  lemma SuperuserIsPrivilegedUser(s: Store, email: Option<string>, password: Option<string>,
                                  flags: UserFlags, again: string)
    requires flags.isStaff != Some(false) && flags.isSuperuser != Some(false)
    ensures CreateSuperuser(s, email, password, flags).Ok? <==> CreateUser(s, email, password, flags).Ok?
    ensures CreateSuperuser(s, email, password, flags).Ok? ==>
      CreateSuperuser(s, email, password, flags).value.1
      == CreateUser(s, email, password, flags).value.1.(isStaff := true, isSuperuser := true)
    ensures CreateSuperuser(s, email, password, flags).Ok? && again != "" && Lower(again) == Lower(email.value) ==>
      CreateUser(CreateSuperuser(s, email, password, flags).value.0, Some(again), None, UserFlags(None, None, None)).Err?
  {
  }

  /** Creating a user lower-cases the email; two emails that differ only in
      ASCII case name the same account, so the second creation is refused. */
  lemma EmailsDifferingInCaseCollide(s: Store, e1: string, e2: string, flags: UserFlags)
    requires e1 != "" && e2 != "" && Lower(e1) == Lower(e2)
    requires CreateUser(s, Some(e1), None, flags).Ok?
    ensures var s1 := CreateUser(s, Some(e1), None, flags).value.0;
            CreateUser(s1, Some(e2), None, flags).Err?
  {
  }
}
