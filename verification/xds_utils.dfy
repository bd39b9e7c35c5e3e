/** Helpers of the experience API: the URLs the catalogue is asked with,
    the reshaping of catalogue records into the search engine's format, and
    the recording of experiences named by an interest list. */
module XdsUtils {
  import opened Wrappers
  import opened Python
  import opened Strings
  import opened Models
  import opened Queries

  const IdQuery: string := "?id="
  const IdSeparator: string := ","

  /** The missing-configuration error of `XDSConfiguration.objects.first()`
      when no configuration is stored. */
  const NoConfiguration: PyError := AttributeError("'NoneType' object has no attribute 'target_xis_metadata_api'")

  /** Each part followed by the separator. */
  function Terminated(parts: seq<string>, sep: string): string
  {
    if |parts| == 0 then "" else Terminated(parts[..|parts| - 1], sep) + parts[|parts| - 1] + sep
  }

  /** A join is the terminated prefix followed by the last part. */
  lemma {:induction false} JoinIsTerminatedPrefix(parts: seq<string>, sep: string)
    requires |parts| >= 1
    ensures Join(parts, sep) == Terminated(parts[..|parts| - 1], sep) + parts[|parts| - 1]
    decreases |parts|
  {
    if |parts| >= 2 {
      var tail := parts[1..];
      JoinIsTerminatedPrefix(tail, sep);
      TerminatedCons(parts[0], tail[..|tail| - 1], sep);
      assert [parts[0]] + tail[..|tail| - 1] == parts[..|parts| - 1];
    }
  }

  lemma {:induction false} TerminatedCons(head: string, rest: seq<string>, sep: string)
    ensures Terminated([head] + rest, sep) == head + sep + Terminated(rest, sep)
    decreases |rest|
  {
    if |rest| > 0 {
      TerminatedCons(head, rest[..|rest| - 1], sep);
      assert ([head] + rest)[..|rest|] == [head] + rest[..|rest| - 1];
    } else {
      assert ([head] + rest)[..0] == [];
    }
  }

  /** The view's loop building `?id=` and the ids: a comma after every id
      but the last. */
  method IdQueryString(ids: seq<string>) returns (queryString: string)
    ensures queryString == IdQuery + Join(ids, IdSeparator)
  {
    queryString := IdQuery;
    var num := 0;
    while num < |ids|
      invariant 0 <= num <= |ids|
      invariant num < |ids| ==> queryString == IdQuery + Terminated(ids[..num], IdSeparator)
      invariant num == |ids| && |ids| > 0 ==> queryString == IdQuery + Join(ids, IdSeparator)
      invariant |ids| == 0 ==> queryString == IdQuery
    {
      if num >= |ids| - 1 {
        JoinIsTerminatedPrefix(ids, IdSeparator);
        queryString := queryString + ids[num];
      } else {
        assert ids[..num + 1][..num] == ids[..num];
        queryString := queryString + ids[num] + IdSeparator;
      }
      num := num + 1;
    }
    if |ids| == 0 {
      assert IdQuery + Join(ids, IdSeparator) == IdQuery + "";
    }
  }

  /** `get_spotlight_courses_api_url`: the configured catalogue URL followed
      by `?id=` and the active spotlights' course ids, comma separated and
      in stored order. */
  method SpotlightCoursesApiUrl(spotlights: seq<CourseSpotlight>, config: Option<XDSConfiguration>)
    returns (r: Result<string, PyError>)
    ensures config.None? ==> r == Err(NoConfiguration)
    ensures config.Some? ==>
      r == Ok(config.value.targetXisMetadataApi + IdQuery + Join(ActiveSpotlightIds(spotlights), IdSeparator))
  {
    if config.None? {
      return Err(NoConfiguration);
    }
    var ids := ActiveSpotlightIds(spotlights);
    var queryString := IdQueryString(ids);
    var url := config.value.targetXisMetadataApi + queryString;
    assert url == config.value.targetXisMetadataApi + IdQuery + Join(ids, IdSeparator);
    return Ok(url);
  }

  /** The catalogue can read the id list back: when no id contains a comma,
      splitting the query's list at commas gives the active spotlights' ids. */
  lemma SpotlightIdsReadBack(spotlights: seq<CourseSpotlight>)
    requires |ActiveSpotlightIds(spotlights)| >= 1
    requires forall c :: c in spotlights && c.active ==> ',' !in c.courseId
    ensures Split(Join(ActiveSpotlightIds(spotlights), IdSeparator), ',') == ActiveSpotlightIds(spotlights)
  {
    var ids := ActiveSpotlightIds(spotlights);
    forall i | 0 <= i < |ids|
      ensures ',' !in ids[i]
    {
      var c :| c in spotlights && c.active && c.courseId == ids[i];
    }
    SplitJoin(ids, ',');
  }

  /** `get_courses_api_url`: the configured catalogue URL with the course id
      appended. */
  function CoursesApiUrl(courseId: string, config: Option<XDSConfiguration>): (r: Result<string, PyError>)
    ensures r.Err? <==> config.None?
    ensures r.Err? ==> r.error == NoConfiguration
    ensures r.Ok? ==> && |r.value| == |config.value.targetXisMetadataApi| + |courseId|
                       && r.value[..|config.value.targetXisMetadataApi|] == config.value.targetXisMetadataApi
                       && r.value[|config.value.targetXisMetadataApi|..] == courseId
  {
    if config.None? then Err(NoConfiguration)
    else Ok(config.value.targetXisMetadataApi + courseId)
  }

  // ---------------------------------------------------------------------
  // Record reshaping

  const MetadataKey: string := "metadata"
  const LedgerKey: string := "Metadata_Ledger"
  const SupplementalKey: string := "Supplemental_Ledger"
  const RecordIdKey: string := "unique_record_identifier"
  const KeyHashKey: string := "metadata_key_hash"
  const RecordMetaKey: string := "meta"

  /** A dictionary record whose metadata holds a dictionary ledger. */
  predicate HasLedger(rec: Json) {
    && rec.JObj?
    && MetadataKey in rec.fields
    && rec.fields[MetadataKey].JObj?
    && LedgerKey in rec.fields[MetadataKey].fields
    && rec.fields[MetadataKey].fields[LedgerKey].JObj?
  }

  /** `format_metadata`: a catalogue record with a metadata ledger becomes
      that ledger plus the supplemental ledger (or null) and a `meta` block
      with the record's id and key hash; a record without a ledger gives
      None. The `in` tests and subscripts follow Python's rules for the
      value they meet. */
  function FormatMetadata(rec: Json): (r: Result<Option<map<string, Json>>, PyError>)
    ensures rec.JObj? && MetadataKey !in rec.fields ==> r == Ok(None)
    ensures rec.JNull? || rec.JBool? || rec.JInt? ==> r.Err? && r.error.TypeError?
    ensures rec.JStr? || rec.JArr? ==> r == Ok(None) || (r.Err? && r.error.TypeError?)
    ensures r.Ok? && r.value.Some? ==> HasLedger(rec)
  {
    var hasMetadata :- Contains(rec, MetadataKey);
    if !hasMetadata then Ok(None)
    else
      var metadata :- Subscript(rec, MetadataKey);
      var hasLedger :- Contains(metadata, LedgerKey);
      if !hasLedger then Ok(None)
      else
        var ledger :- Subscript(metadata, LedgerKey);
        if !ledger.JObj? then Err(TypeError("object does not support item assignment"))
        else
          var supplemental := if SupplementalKey in metadata.fields then metadata.fields[SupplementalKey] else JNull;
          var result := ledger.fields[SupplementalKey := supplemental];
          var id :- Subscript(rec, RecordIdKey);
          var keyHash :- Subscript(rec, KeyHashKey);
          Ok(Some(result[RecordMetaKey := JObj(map["id" := id, KeyHashKey := keyHash])]))
  }

  function Ledger(rec: Json): map<string, Json>
    requires HasLedger(rec)
  {
    rec.fields[MetadataKey].fields[LedgerKey].fields
  }

  /** The outcome of formatting a record with a ledger: a KeyError for each
      missing identifier, checked in order; otherwise the ledger keeps every
      other entry and gains the supplemental ledger and the meta block. */
  lemma FormatLedgerRecord(rec: Json)
    requires HasLedger(rec)
    ensures RecordIdKey !in rec.fields ==> FormatMetadata(rec) == Err(KeyError(RecordIdKey))
    ensures RecordIdKey in rec.fields && KeyHashKey !in rec.fields ==> FormatMetadata(rec) == Err(KeyError(KeyHashKey))
    ensures FormatMetadata(rec).Ok? <==> RecordIdKey in rec.fields && KeyHashKey in rec.fields
    ensures FormatMetadata(rec).Ok? ==>
      && FormatMetadata(rec).value.Some?
      && FormatMetadata(rec).value.value.Keys == Ledger(rec).Keys + {SupplementalKey, RecordMetaKey}
      && FormatMetadata(rec).value.value[RecordMetaKey]
         == JObj(map["id" := rec.fields[RecordIdKey], KeyHashKey := rec.fields[KeyHashKey]])
      && FormatMetadata(rec).value.value[SupplementalKey]
         == (if SupplementalKey in rec.fields[MetadataKey].fields then rec.fields[MetadataKey].fields[SupplementalKey] else JNull)
      && (forall k :: k in Ledger(rec) && k != SupplementalKey && k != RecordMetaKey ==>
            FormatMetadata(rec).value.value[k] == Ledger(rec)[k])
  {
  }

  /** Inverse of the reshaping: taking away the two added entries gives back
      the ledger without them. */
  lemma FormatMetadataRestoresLedger(rec: Json)
    requires HasLedger(rec)
    requires RecordIdKey in rec.fields && KeyHashKey in rec.fields
    ensures FormatMetadata(rec).Ok? && FormatMetadata(rec).value.Some?
    ensures FormatMetadata(rec).value.value - {SupplementalKey, RecordMetaKey}
            == Ledger(rec) - {SupplementalKey, RecordMetaKey}
  {
    FormatLedgerRecord(rec);
  }

  /** A dictionary whose metadata is a dictionary without a ledger gives None. */
  lemma FormatWithoutLedger(rec: Json)
    requires rec.JObj? && MetadataKey in rec.fields && rec.fields[MetadataKey].JObj?
    requires LedgerKey !in rec.fields[MetadataKey].fields
    ensures FormatMetadata(rec) == Ok(None)
  {
  }

  /** None becomes null once the result is serialised. */
  function OptionToJson(o: Option<map<string, Json>>): Json {
    if o.None? then JNull else JObj(o.value)
  }

  /** Formats every record of a list, in order; the first failure is the
      result. */
  function FormatAll(records: seq<Json>): (r: Result<seq<Json>, PyError>)
    ensures r.Ok? <==> forall i :: 0 <= i < |records| ==> FormatMetadata(records[i]).Ok?
    ensures r.Ok? ==> |r.value| == |records|
    ensures r.Ok? ==> forall i :: 0 <= i < |records| ==> r.value[i] == OptionToJson(FormatMetadata(records[i]).value)
    ensures r.Err? ==> exists i :: 0 <= i < |records| && FormatMetadata(records[i]) == Err(r.error)
    decreases |records|
  {
    if |records| == 0 then Ok([])
    else
      var first :- FormatMetadata(records[0]);
      var rest :- FormatAll(records[1..]);
      assert forall i :: 1 <= i < |records| ==> records[i] == records[1..][i - 1];
      Ok([OptionToJson(first)] + rest)
  }

  /** `metadata_to_target` on the decoded document: a list is formatted
      element by element, a dictionary as one record, anything else is null. */
  function MetadataToTarget(doc: Json): (r: Result<Json, PyError>)
    ensures doc.JArr? ==> (r.Ok? <==> forall i :: 0 <= i < |doc.items| ==> FormatMetadata(doc.items[i]).Ok?)
    ensures doc.JArr? && r.Ok? ==> r.value.JArr? && |r.value.items| == |doc.items|
    ensures doc.JArr? && r.Ok? ==> forall i :: 0 <= i < |doc.items| ==>
      r.value.items[i] == OptionToJson(FormatMetadata(doc.items[i]).value)
    ensures doc.JObj? ==> (r.Ok? <==> FormatMetadata(doc).Ok?)
    ensures doc.JObj? && r.Ok? ==> r.value == OptionToJson(FormatMetadata(doc).value)
    ensures !doc.JArr? && !doc.JObj? ==> r == Ok(JNull)
  {
    match doc
    case JArr(items) =>
      var formatted :- FormatAll(items);
      Ok(JArr(formatted))
    case JObj(_) =>
      var formatted :- FormatMetadata(doc);
      Ok(OptionToJson(formatted))
    case _ => Ok(JNull)
  }

  // ---------------------------------------------------------------------
  // Experiences

  /** `save_experiences`: every listed key hash ends up stored, once;
      nothing already stored is lost. */
  method SaveExperiences(stored: set<string>, courseList: seq<string>) returns (r: set<string>)
    ensures forall h :: h in r <==> h in stored || h in courseList
  {
    r := stored;
    var i := 0;
    while i < |courseList|
      invariant 0 <= i <= |courseList|
      invariant forall h :: h in r <==> h in stored || h in courseList[..i]
    {
      r := r + {courseList[i]};
      assert courseList[..i + 1] == courseList[..i] + [courseList[i]];
      i := i + 1;
    }
    assert courseList[..i] == courseList;
  }
}
