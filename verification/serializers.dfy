/** The serializer rules of the experience API: which configuration rows a
    list representation shows and in what order, and how interest lists and
    saved filters are created and updated. */
module Serializers {
  import opened Wrappers
  import opened Python
  import opened Strings
  import opened Seqs
  import opened Models

  // ---------------------------------------------------------------------
  // List representations

  /** `FilteredListSerializer` over the sort options: only the active ones,
      in stored order. */
  function FilteredSortOptions(options: seq<SearchSortOption>): (r: seq<SearchSortOption>)
    ensures IsSubsequence(r, options)
    ensures forall i :: 0 <= i < |r| ==> r[i].active
    ensures forall i :: 0 <= i < |options| && options[i].active ==> options[i] in r
  {
    Filter(options, (o: SearchSortOption) => o.active)
  }

  /** Showing an already filtered list shows it unchanged. */
  lemma FilteredSortOptionsIdempotent(options: seq<SearchSortOption>)
    ensures FilteredSortOptions(FilteredSortOptions(options)) == FilteredSortOptions(options)
  {
    FilterIdempotent(options, (o: SearchSortOption) => o.active);
  }

  predicate SortedByRank(s: seq<CourseDetailHighlight>) {
    forall i, j :: 0 <= i < j < |s| ==> s[i].rank <= s[j].rank
  }

  /** Inserts `h` after every element of rank at most its own. */
  function InsertByRank(h: CourseDetailHighlight, s: seq<CourseDetailHighlight>): (r: seq<CourseDetailHighlight>)
    requires SortedByRank(s)
    ensures SortedByRank(r)
    ensures multiset(r) == multiset(s) + multiset{h}
    ensures forall i :: 0 <= i < |r| ==> r[i] == h || r[i] in s
    decreases |s|
  {
    if |s| == 0 then [h]
    else if h.rank < s[0].rank then [h] + s
    else
      var rest := InsertByRank(h, s[1..]);
      assert s == [s[0]] + s[1..];
      assert forall i :: 0 <= i < |rest| ==> s[0].rank <= rest[i].rank;
      [s[0]] + rest
  }

  /** The rows ordered by rank (insertion sort). */
  function SortByRank(s: seq<CourseDetailHighlight>): (r: seq<CourseDetailHighlight>)
    ensures SortedByRank(r)
    ensures multiset(r) == multiset(s)
    decreases |s|
  {
    if |s| == 0 then []
    else
      assert s == s[..|s| - 1] + [s[|s| - 1]];
      InsertByRank(s[|s| - 1], SortByRank(s[..|s| - 1]))
  }

  /** `OrderedListSerializer` over the course-detail highlights: the active
      rows, ordered by rank. */
  function OrderedHighlights(highlights: seq<CourseDetailHighlight>): (r: seq<CourseDetailHighlight>)
    ensures SortedByRank(r)
    ensures multiset(r) == multiset(Filter(highlights, (h: CourseDetailHighlight) => h.active))
    ensures forall i :: 0 <= i < |r| ==> r[i].active && r[i] in highlights
    ensures forall h :: h in highlights && h.active ==> h in r
  {
    var active := Filter(highlights, (h: CourseDetailHighlight) => h.active);
    var r := SortByRank(active);
    SameMultisetSameElements(r, active);
    r
  }

  /** Sequences with the same multiset hold the same elements. */
  lemma SameMultisetSameElements<T>(a: seq<T>, b: seq<T>)
    requires multiset(a) == multiset(b)
    ensures forall i :: 0 <= i < |a| ==> a[i] in b
    ensures forall i :: 0 <= i < |b| ==> b[i] in a
  {
    forall i | 0 <= i < |a|
      ensures a[i] in b
    {
      assert a[i] in multiset(a);
    }
    forall i | 0 <= i < |b|
      ensures b[i] in a
    {
      assert b[i] in multiset(b);
    }
  }

  // ---------------------------------------------------------------------
  // Interest lists

  /** An interest list: the scalar fields, the experiences it holds (by key
      hash) and its subscribers' e-mail addresses. */
  datatype InterestList = InterestList(
    owner: string,
    description: string,
    name: string,
    experiences: set<string>,
    subscribers: seq<string>)

  /** The validated request data; an absent entry is None. */
  datatype InterestListData = InterestListData(
    owner: Option<string>,
    description: Option<string>,
    name: Option<string>,
    experiences: Option<seq<string>>)

  /** `InterestListSerializer.create`: a list with the given name,
      description and owner and nothing else; a missing one cannot be
      stored in its non-null column. */
  function CreateInterestList(data: InterestListData): (r: Result<InterestList, PyError>)
    ensures r.Ok? <==> data.name.Some? && data.description.Some? && data.owner.Some?
    ensures r.Err? ==> r.error.IntegrityError?
    ensures r.Ok? ==> && r.value.name == data.name.value
                      && r.value.description == data.description.value
                      && r.value.owner == data.owner.value
                      && r.value.experiences == {}
                      && r.value.subscribers == []
  {
    if data.name.None? || data.description.None? || data.owner.None? then
      Err(IntegrityError("NOT NULL constraint failed"))
    else
      Ok(InterestList(data.owner.value, data.description.value, data.name.value, {}, []))
  }

  /** The three `validated_data.get(key, current)` assignments. */
  function ApplyScalarUpdate(instance: InterestList, data: InterestListData): (r: InterestList)
    ensures r.owner == data.owner.GetOr(instance.owner)
    ensures r.description == data.description.GetOr(instance.description)
    ensures r.name == data.name.GetOr(instance.name)
    ensures r.experiences == instance.experiences && r.subscribers == instance.subscribers
  {
    instance.(owner := data.owner.GetOr(instance.owner),
              description := data.description.GetOr(instance.description),
              name := data.name.GetOr(instance.name))
  }

  /** Applying the same scalar update twice is applying it once; an empty
      update changes nothing. */
  lemma ScalarUpdateIdempotent(instance: InterestList, data: InterestListData)
    ensures ApplyScalarUpdate(ApplyScalarUpdate(instance, data), data) == ApplyScalarUpdate(instance, data)
    ensures ApplyScalarUpdate(instance, InterestListData(None, None, None, data.experiences)) == instance
  {
  }

  const CountMessagePrefix: string := "Count of New Courses added: "

  /** What an update leaves behind: the stored list (the experience changes
      are written as they happen, the scalar fields only by the final save)
      and the notification message or the error that stopped the update. */
  datatype UpdateOutcome = UpdateOutcome(stored: InterestList, result: Result<string, PyError>)

  /** `InterestListSerializer.update`. `senderEmail` is the address of the
      stored sender configuration, if one exists. */
  method UpdateInterestList(instance: InterestList, data: InterestListData, senderEmail: Option<string>)
    returns (outcome: UpdateOutcome)
    ensures data.experiences.None? ==> outcome.stored == instance && outcome.result.Err? && outcome.result.error.TypeError?
    ensures data.experiences.Some? ==>
      forall e :: e in outcome.stored.experiences <==> e in data.experiences.value
    ensures outcome.stored.subscribers == instance.subscribers
    ensures data.experiences.Some? && senderEmail.Some? ==>
      && outcome.result == Ok(CountMessagePrefix + IntToString(|data.experiences.value|))
      && outcome.stored.owner == data.owner.GetOr(instance.owner)
      && outcome.stored.description == data.description.GetOr(instance.description)
      && outcome.stored.name == data.name.GetOr(instance.name)
    ensures data.experiences.Some? && senderEmail.None? ==>
      && outcome.result.Err? && outcome.result.error.AttributeError?
      && outcome.stored.owner == instance.owner
      && outcome.stored.description == instance.description
      && outcome.stored.name == instance.name
  {
    var updated := ApplyScalarUpdate(instance, data);
    if data.experiences.None? {
      return UpdateOutcome(instance, Err(TypeError("'NoneType' object is not iterable")));
    }
    var supplied := data.experiences.value;
    var experiences := instance.experiences;
    var count := 0;
    while count < |supplied|
      invariant 0 <= count <= |supplied|
      invariant forall e :: e in experiences <==> e in instance.experiences || e in supplied[..count]
    {
      experiences := experiences + {supplied[count]};
      assert supplied[..count + 1] == supplied[..count] + [supplied[count]];
      count := count + 1;
    }
    assert supplied[..count] == supplied;
    var toVisit := experiences;
    var kept := experiences;
    while toVisit != {}
      invariant toVisit <= experiences
      invariant forall e :: e in kept <==> e in experiences && (e in toVisit || e in supplied)
      decreases |toVisit|
    {
      var e :| e in toVisit;
      if e !in supplied {
        kept := kept - {e};
      }
      toVisit := toVisit - {e};
    }
    var msg := CountMessagePrefix + IntToString(count);
    if senderEmail.None? {
      return UpdateOutcome(instance.(experiences := kept),
                           Err(AttributeError("'NoneType' object has no attribute 'sender_email_address'")));
    }
    return UpdateOutcome(updated.(experiences := kept), Ok(msg));
  }

  // ---------------------------------------------------------------------
  // Saved filters

  /** A saved search: its owner, name and query string, and the fields the
      update does not touch, summarised by the row's key. */
  datatype SavedFilter = SavedFilter(id: Pk, owner: string, name: string, query: string)

  datatype SavedFilterData = SavedFilterData(owner: Option<string>, name: Option<string>, query: Option<string>)

  /** `SavedFilterSerializer.update`: each supplied field replaces the
      stored one; the rest is kept. */
  function UpdateSavedFilter(instance: SavedFilter, data: SavedFilterData): (r: SavedFilter)
    ensures r.id == instance.id
    ensures data.owner.Some? ==> r.owner == data.owner.value
    ensures data.owner.None? ==> r.owner == instance.owner
    ensures data.name.Some? ==> r.name == data.name.value
    ensures data.name.None? ==> r.name == instance.name
    ensures data.query.Some? ==> r.query == data.query.value
    ensures data.query.None? ==> r.query == instance.query
  {
    instance.(owner := data.owner.GetOr(instance.owner),
              name := data.name.GetOr(instance.name),
              query := data.query.GetOr(instance.query))
  }

  /** Updates compose field by field: the later supplied value wins, and an
      empty update is the identity. */
  lemma SavedFilterUpdatesCompose(instance: SavedFilter, first: SavedFilterData, second: SavedFilterData)
    ensures UpdateSavedFilter(UpdateSavedFilter(instance, first), second)
            == UpdateSavedFilter(instance, SavedFilterData(
                 if second.owner.Some? then second.owner else first.owner,
                 if second.name.Some? then second.name else first.name,
                 if second.query.Some? then second.query else first.query))
    ensures UpdateSavedFilter(instance, SavedFilterData(None, None, None)) == instance
  {
  }
}
