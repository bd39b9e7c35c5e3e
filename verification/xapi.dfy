/** xAPI helpers: the verb whitelist applied to incoming statements, the
    two actor shapes, and the choice of the account name among the claims
    of a decoded token. */
module Xapi {
  import opened Wrappers
  import opened Python
  import opened Seqs

  /** The verbs a statement may carry to be forwarded. */
  const VerbWhitelist: set<string> := {
    "https://w3id.org/xapi/tla/verbs/socialized",
    "https://w3id.org/xapi/tla/verbs/explored",
    "https://w3id.org/xapi/acrossx/verbs/explored",
    "https://w3id.org/xapi/acrossx/verbs/prioritized",
    "https://w3id.org/xapi/dod-isd/verbs/curated",
    "https://w3id.org/xapi/tla/verbs/registered",
    "https://w3id.org/xapi/acrossx/verbs/searched"
  }

  const VerbKey: string := "verb"
  const IdKey: string := "id"

  /** `st.get("verb", {}).get("id")`: the statement and its verb must be
      dictionaries (anything else has no `get`); a missing entry reads as
      None. */
  function VerbIri(st: Json): (r: Result<Json, PyError>)
  {
    if !st.JObj? then Err(AttributeError("object has no attribute 'get'"))
    else
      var verb := if VerbKey in st.fields then st.fields[VerbKey] else JObj(map[]);
      if !verb.JObj? then Err(AttributeError("object has no attribute 'get'"))
      else Ok(if IdKey in verb.fields then verb.fields[IdKey] else JNull)
  }

  /** `verb_iri in VERB_WHITELIST`: lists and dictionaries cannot be looked
      up in a set. The test raises exactly when the statement is not a
      dictionary, when its verb is present but not a dictionary, or when the
      verb's id is a list or a dictionary; what it answers otherwise is
      stated by `WhitelistedIsAllowed`. */
  function Whitelisted(st: Json): (r: Result<bool, PyError>)
    ensures r.Err? <==>
      || !st.JObj?
      || (VerbKey in st.fields && !st.fields[VerbKey].JObj?)
      || (VerbKey in st.fields && st.fields[VerbKey].JObj? && IdKey in st.fields[VerbKey].fields &&
          (st.fields[VerbKey].fields[IdKey].JArr? || st.fields[VerbKey].fields[IdKey].JObj?))
    ensures !st.JObj? ==> r == Err(AttributeError("object has no attribute 'get'"))
  {
    var iri :- VerbIri(st);
    if iri.JArr? || iri.JObj? then Err(TypeError("unhashable type"))
    else Ok(iri.JStr? && iri.s in VerbWhitelist)
  }

  /** The statement is a dictionary whose verb is a dictionary whose id is a
      whitelisted IRI. */
  predicate AllowedStatement(st: Json) {
    && st.JObj?
    && VerbKey in st.fields
    && st.fields[VerbKey].JObj?
    && IdKey in st.fields[VerbKey].fields
    && st.fields[VerbKey].fields[IdKey].JStr?
    && st.fields[VerbKey].fields[IdKey].s in VerbWhitelist
  }

  /** The whitelist test, where it does not raise, is `AllowedStatement`. */
  lemma WhitelistedIsAllowed(st: Json)
    ensures Whitelisted(st).Ok? ==> Whitelisted(st).value == AllowedStatement(st)
    ensures AllowedStatement(st) ==> Whitelisted(st) == Ok(true)
    ensures st.JObj? && VerbKey !in st.fields ==> Whitelisted(st) == Ok(false)
  {
  }

  /** `filter_allowed_statements`: the statements whose verb is whitelisted,
      in their original order; a statement the test cannot be applied to
      raises. When it fails is stated by `FilterAllowedOutcome`. */
  function FilterAllowedStatements(statements: seq<Json>): (r: Result<seq<Json>, PyError>)
    ensures r.Ok? ==> r.value == Filter(statements, AllowedStatement)
  {
    forall st
      ensures Whitelisted(st).Ok? ==> Whitelisted(st).value == AllowedStatement(st)
    {
      WhitelistedIsAllowed(st);
    }
    TryFilterOutcome(statements, Whitelisted, AllowedStatement);
    TryFilter(statements, Whitelisted)
  }

  /** The filter succeeds exactly when the whitelist test raises on no
      statement, and then keeps the allowed statements in order; otherwise
      it fails with the error of a statement the test raises on. */
  lemma FilterAllowedOutcome(statements: seq<Json>)
    ensures FilterAllowedStatements(statements).Ok? <==>
      forall i :: 0 <= i < |statements| ==> Whitelisted(statements[i]).Ok?
    ensures FilterAllowedStatements(statements).Ok? ==>
      FilterAllowedStatements(statements).value == Filter(statements, AllowedStatement)
    ensures FilterAllowedStatements(statements).Err? ==>
      exists i :: 0 <= i < |statements| && Whitelisted(statements[i]) == Err(FilterAllowedStatements(statements).error)
  {
    forall st
      ensures Whitelisted(st).Ok? ==> Whitelisted(st).value == AllowedStatement(st)
    {
      WhitelistedIsAllowed(st);
    }
    TryFilterOutcome(statements, Whitelisted, AllowedStatement);
  }

  /** The kept statements are exactly the whitelisted ones, in order: a
      subsequence of the input holding every allowed statement and only
      those. */
  lemma FilterAllowedExact(statements: seq<Json>)
    requires FilterAllowedStatements(statements).Ok?
    ensures IsSubsequence(FilterAllowedStatements(statements).value, statements)
    ensures forall i :: 0 <= i < |FilterAllowedStatements(statements).value| ==>
      AllowedStatement(FilterAllowedStatements(statements).value[i])
    ensures forall i :: 0 <= i < |statements| && AllowedStatement(statements[i]) ==>
      statements[i] in FilterAllowedStatements(statements).value
  {
    FilterAllowedOutcome(statements);
  }

  /** A statement with no verb, or a verb with no id, is dropped. */
  lemma StatementsWithoutVerbIdDropped(statements: seq<Json>)
    requires FilterAllowedStatements(statements).Ok?
    ensures forall st :: st in FilterAllowedStatements(statements).value ==>
      st.JObj? && VerbKey in st.fields && st.fields[VerbKey].JObj? && IdKey in st.fields[VerbKey].fields
  {
    FilterAllowedOutcome(statements);
    var kept := FilterAllowedStatements(statements).value;
    forall st | st in kept
      ensures st.JObj? && VerbKey in st.fields && st.fields[VerbKey].JObj? && IdKey in st.fields[VerbKey].fields
    {
      var i :| 0 <= i < |kept| && kept[i] == st;
    }
  }

  /** Filtering an already filtered list changes nothing. */
  lemma {:induction false} FilterAllowedIdempotent(statements: seq<Json>)
    requires FilterAllowedStatements(statements).Ok?
    ensures FilterAllowedStatements(FilterAllowedStatements(statements).value)
            == FilterAllowedStatements(statements)
  {
    FilterAllowedOutcome(statements);
    var kept := FilterAllowedStatements(statements).value;
    FilterAllowedOutcome(kept);
    forall i | 0 <= i < |kept|
      ensures Whitelisted(kept[i]).Ok?
    {
      WhitelistedIsAllowed(kept[i]);
    }
    FilterIdempotent(statements, AllowedStatement);
  }

  // ---------------------------------------------------------------------
  // Actors

  const ObjectTypeKey: string := "objectType"
  const Agent: string := "Agent"
  const MboxKey: string := "mbox"
  const MailtoScheme: string := "mailto:"
  const AccountKey: string := "account"
  const HomePageKey: string := "homePage"
  const NameKey: string := "name"

  /** `actor_with_mbox`. */
  function ActorWithMbox(email: string): (r: Json)
    ensures r.JObj? && r.fields.Keys == {ObjectTypeKey, MboxKey}
    ensures r.fields[ObjectTypeKey] == JStr(Agent)
  {
    JObj(map[ObjectTypeKey := JStr(Agent), MboxKey := JStr(MailtoScheme + email)])
  }

  /** The e-mail address an mbox agent names, when it is one. */
  function MboxAddress(actor: Json): Option<string> {
    if && actor.JObj? && MboxKey in actor.fields && actor.fields[MboxKey].JStr?
       && |actor.fields[MboxKey].s| >= |MailtoScheme|
       && actor.fields[MboxKey].s[..|MailtoScheme|] == MailtoScheme
    then Some(actor.fields[MboxKey].s[|MailtoScheme|..])
    else None
  }

  /** The mbox is `mailto:` followed by the address, and nothing else:
      reading it back gives the address. */
  lemma MboxRoundTrip(email: string)
    ensures MboxAddress(ActorWithMbox(email)) == Some(email)
  {
    var s := MailtoScheme + email;
    assert s[..|MailtoScheme|] == MailtoScheme;
    assert s[|MailtoScheme|..] == email;
  }

  /** `actor_with_account`. */
  function ActorWithAccount(homePage: string, name: string): (r: Json)
    ensures r.JObj? && r.fields.Keys == {ObjectTypeKey, AccountKey}
    ensures r.fields[ObjectTypeKey] == JStr(Agent)
    ensures r.fields[AccountKey].JObj? && r.fields[AccountKey].fields.Keys == {HomePageKey, NameKey}
  {
    JObj(map[ObjectTypeKey := JStr(Agent),
             AccountKey := JObj(map[HomePageKey := JStr(homePage), NameKey := JStr(name)])])
  }

  /** The home page and name of an account agent, when it is one. */
  function AccountOf(actor: Json): Option<(string, string)> {
    if && actor.JObj? && AccountKey in actor.fields && actor.fields[AccountKey].JObj?
       && HomePageKey in actor.fields[AccountKey].fields && NameKey in actor.fields[AccountKey].fields
       && actor.fields[AccountKey].fields[HomePageKey].JStr?
       && actor.fields[AccountKey].fields[NameKey].JStr?
    then Some((actor.fields[AccountKey].fields[HomePageKey].s, actor.fields[AccountKey].fields[NameKey].s))
    else None
  }

  /** The account agent carries its home page and name unchanged, and is
      never mistaken for an mbox agent. */
  lemma AccountRoundTrip(homePage: string, name: string)
    ensures AccountOf(ActorWithAccount(homePage, name)) == Some((homePage, name))
    ensures MboxAddress(ActorWithAccount(homePage, name)).None?
  {
  }

  // ---------------------------------------------------------------------
  // Account name

  /** Some field of `fields` holds a truthy claim. */
  predicate HasTruthyClaim(payload: map<string, Json>, fields: seq<string>) {
    exists i :: 0 <= i < |fields| && fields[i] in payload && Truthy(payload[fields[i]])
  }

  /** The selection step of `jwt_account_name`: the value of the first field,
      in `fields` order, whose claim is truthy; None when there is none. */
  function JwtAccountName(payload: map<string, Json>, fields: seq<string>): (r: Option<Json>)
    ensures r.None? <==> !HasTruthyClaim(payload, fields)
    ensures r.Some? ==> exists i :: && 0 <= i < |fields| && fields[i] in payload
                                     && r.value == payload[fields[i]] && Truthy(r.value)
                                     && forall j :: 0 <= j < i ==> !(fields[j] in payload && Truthy(payload[fields[j]]))
    decreases |fields|
  {
    if |fields| == 0 then None
    else if fields[0] in payload && Truthy(payload[fields[0]]) then Some(payload[fields[0]])
    else
      var r := JwtAccountName(payload, fields[1..]);
      assert forall i :: 1 <= i < |fields| ==> fields[i] == fields[1..][i - 1];
      r
  }
}
