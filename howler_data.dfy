/**
  The record schemas of a Howler hit, field for field in declaration order,
  with the module-level defaults, and what the construction rule of
  `Records` makes of them.
*/
module HowlerData {
  import opened Wrappers
  import opened Enums
  import opened EnumTables
  import opened Records
  import LogEntry

  /** A list field defaulting to the empty list. */
  function EmptyList(name: string, elem: Kind): Field
  {
    Field(name, ListOf(elem), false, Given(List([])))
  }

  /** An `odm.Optional` field without default. */
  function Opt(name: string, kind: Kind): Field
  {
    Field(name, kind, true, NoDefault)
  }

  /** A field declared with neither `optional` nor a default. */
  function Req(name: string, kind: Kind): Field
  {
    Field(name, kind, false, NoDefault)
  }

  const LinkModel := Model("Link", [
    Req("href", Keyword),
    Opt("title", Text),
    Req("icon", Keyword)], Unguarded)

  const CommentModel := Model("Comment", [
    Req("id", Uuid),
    Field("timestamp", Date, false, Now),
    Field("modified", Date, false, Now),
    Req("value", Text),
    Req("user", Keyword),
    Field("reactions", Mapping, false, Given(Obj(map[])))], Unguarded)

  /** `Log`, whose `__init__` runs the explanation-or-change guard first. */
  const LogModel := Model("Log", [
    Req("timestamp", Date),
    Opt("key", Keyword),
    Opt("explanation", Text),
    Opt("previous_version", Keyword),
    Opt("new_value", Keyword),
    Opt("type", EnumOf(HitOperationTypeTable)),
    Opt("previous_value", Keyword),
    Req("user", Keyword)], ExplanationOrDiff)

  const HeaderModel := Model("Header", [
    Opt("threat", Text),
    Opt("target", Text),
    EmptyList("indicators", Text),
    Opt("summary", Text)], Unguarded)

  const LabelModel := Model("Label", [
    EmptyList("assignments", Text),
    EmptyList("generic", Text),
    EmptyList("insight", Text),
    EmptyList("mitigation", Text),
    EmptyList("victim", Text),
    EmptyList("campaign", Text),
    EmptyList("threat", Text),
    EmptyList("operation", Text)], Unguarded)

  const VotesModel := Model("Votes", [
    EmptyList("benign", Keyword),
    EmptyList("obscure", Keyword),
    EmptyList("malicious", Keyword)], Unguarded)

  /** `DEFAULT_VOTES`: an empty list for every value of `Vote.list()`. */
  function DefaultVotes(): map<string, Value>
  {
    map v | v in ListValues(VoteTable) :: List([])
  }

  /** `DEFAULT_LABELS`: only two of the eight label categories. */
  const DefaultLabels: map<string, Value> := map["assignments" := List([]), "generic" := List([])]

  /** `DEFAULT_ASSIGNMENT` */
  const DefaultAssignment := "unassigned"

  /** `labels`: optional, defaulting to `DEFAULT_LABELS`. */
  const LabelsField := Field("labels", Compound(LabelModel), true, Given(Obj(DefaultLabels)))

  /** `votes`: optional, defaulting to `DEFAULT_VOTES`. */
  const VotesField := Field("votes", Compound(VotesModel), true, Given(Obj(DefaultVotes())))

  const HitIdentityFields := [
    Req("id", Uuid),
    Req("analytic", Keyword),
    Field("assignment", Keyword, false, Given(Str(DefaultAssignment))),
    EmptyList("bundles", Keyword),
    EmptyList("data", Keyword),
    EmptyList("links", Compound(LinkModel)),
    Opt("detection", Keyword),
    Req("hash", Sha256),
    EmptyList("hits", Keyword),
    Field("is_bundle", Boolean, false, Given(Bool(false)))]

  const HitMetricFields := [
    EmptyList("related", Keyword),
    Opt("reliability", Float),
    Opt("severity", Float),
    Opt("volume", Float),
    Opt("confidence", Float),
    Req("score", Float)]

  const HitTriageFields := [
    Field("status", EnumOf(HitStatusTable), false, Given(Str("open"))),
    Field("scrutiny", EnumOf(ScrutinyTable), false, Given(Str("unseen"))),
    Field("escalation", EnumOf(EscalationTable), false, Given(Str(Hit))),
    Opt("assessment", EnumOf(AssessmentTable)),
    Opt("rationale", Text)]

  const HitAnnotationFields := [
    EmptyList("comment", Compound(CommentModel)),
    EmptyList("log", Compound(LogModel)),
    Opt("retained", Keyword),
    Opt("monitored", Keyword),
    Opt("reported", Keyword),
    Opt("mitigated", Keyword),
    Opt("outline", Compound(HeaderModel)),
    LabelsField,
    VotesField,
    Opt("dossier", Flattened),
    EmptyList("viewers", Keyword)]

  const HowlerDataModel := Model("HowlerData",
    HitIdentityFields + HitMetricFields + HitTriageFields + HitAnnotationFields, Unguarded)

  // ---------------------------------------------------------------------------
  // Labels and votes

  /** The eight label categories. */
  lemma LabelFieldNames()
    ensures FieldNames(LabelModel) ==
      {"assignments", "generic", "insight", "mitigation", "victim", "campaign", "threat", "operation"}
  {
    var fs := LabelModel.fields;
    assert fs[0].name == "assignments" && fs[1].name == "generic" && fs[2].name == "insight";
    assert fs[3].name == "mitigation" && fs[4].name == "victim" && fs[5].name == "campaign";
    assert fs[6].name == "threat" && fs[7].name == "operation";
  }

  /**
    `DEFAULT_LABELS` names only two categories, yet the `Label` built from it
    holds all eight, each empty.
  */
  lemma DefaultLabelsShape(now: Value)
    ensures DefaultLabels.Keys < FieldNames(LabelModel)
    ensures Construct(LabelModel, DefaultLabels, now) == Ok(EmptyLists(LabelModel))
    ensures EmptyLists(LabelModel).Keys ==
      {"assignments", "generic", "insight", "mitigation", "victim", "campaign", "threat", "operation"}
  {
    LabelFieldNames();
    assert "insight" !in DefaultLabels;
    AllEmptyLists(LabelModel, DefaultLabels, now);
  }

  /** `DEFAULT_VOTES` has one empty list per `Vote` value: exactly the fields of `Votes`. */
  lemma DefaultVotesShape(now: Value)
    ensures DefaultVotes().Keys == {"malicious", "obscure", "benign"} == FieldNames(VotesModel)
    ensures forall v :: v in DefaultVotes() ==> DefaultVotes()[v] == List([])
    ensures Construct(VotesModel, DefaultVotes(), now) == Ok(EmptyLists(VotesModel))
  {
    DefaultVotesKeys();
    AllEmptyLists(VotesModel, DefaultVotes(), now);
  }

  /** The keys of `DEFAULT_VOTES` are the three `Vote` values, which name the fields of `Votes`. */
  lemma DefaultVotesKeys()
    ensures DefaultVotes().Keys == {"malicious", "obscure", "benign"} == FieldNames(VotesModel)
  {
    VoteOrder();
    var fs := VotesModel.fields;
    assert fs[0].name == "benign" && fs[1].name == "obscure" && fs[2].name == "malicious";
  }

  // ---------------------------------------------------------------------------
  // Log entries

  /**
    `Log(data)`: the raw dictionary is required (`None` makes the guard's
    `in` test raise), the guard runs on its keys, and then the record is built.
  */
  function LogInit(data: Option<map<string, Value>>, now: Value): (r: Result<map<string, Value>, Error>)
    ensures r.Ok? <==>
      && data.Some? && LogEntry.Admissible(data.value.Keys)
      && "timestamp" in data.value && "user" in data.value && data.value.Keys <= LogNames
    ensures r.Err? && data.Some? && !LogEntry.Admissible(data.value.Keys) ==> r.error == InvalidLogEntry("Log")
  {
    match data
    case None => Err(NoInput("Log"))
    case Some(d) => LogConstruct(d, now); Construct(LogModel, d, now)
  }

  /** The only required fields of a log entry are `timestamp` and `user`. */
  lemma LogRequiredNames()
    ensures RequiredNames(LogModel) == {"timestamp", "user"}
  {
    var fs := LogModel.fields;
    assert fs[0].name == "timestamp" && fs[7].name == "user";
  }

  /** The eight fields of a log entry. */
  lemma LogFieldNames()
    ensures FieldNames(LogModel) == LogNames
  {
    var fs := LogModel.fields;
    assert fs[0].name == "timestamp" && fs[1].name == "key" && fs[2].name == "explanation";
    assert fs[3].name == "previous_version" && fs[4].name == "new_value" && fs[5].name == "type";
    assert fs[6].name == "previous_value" && fs[7].name == "user";
  }

  const LogNames: set<string> :=
    {"timestamp", "key", "explanation", "previous_version", "new_value", "type", "previous_value", "user"}

  /**
    A log entry is built exactly when it has `timestamp` and `user`, either
    an `explanation` or all four change keys, and no other key than its
    eight fields. The guard is checked first.
  */
  lemma LogConstruct(data: map<string, Value>, now: Value)
    ensures Construct(LogModel, data, now).Ok? <==>
      LogEntry.Admissible(data.Keys) && "timestamp" in data && "user" in data && data.Keys <= LogNames
    ensures !LogEntry.Admissible(data.Keys) ==> Construct(LogModel, data, now) == Err(InvalidLogEntry("Log"))
  {
    LogRequiredNames();
    LogFieldNames();
    FlatConstruct(LogModel, data, now);
  }

  /** An explained entry needs none of the change keys. */
  lemma ExplainedEntry(now: Value)
    ensures Construct(LogModel, map["explanation" := Str("x"), "user" := Str("u"), "timestamp" := now], now).Ok?
  {
    var data := map["explanation" := Str("x"), "user" := Str("u"), "timestamp" := now];
    LogConstruct(data, now);
  }

  /** An entry with neither explanation nor change keys is refused. */
  lemma BareEntryRefused(now: Value)
    ensures Construct(LogModel, map["user" := Str("u"), "timestamp" := now], now) == Err(InvalidLogEntry("Log"))
  {
    var data := map["user" := Str("u"), "timestamp" := now];
    assert "key" !in data.Keys;
    LogConstruct(data, now);
  }

  /** Three of the four change keys are not enough: without `previous_value` the entry is refused. */
  lemma PartialChangeRefused(now: Value)
    ensures Construct(LogModel,
      map["key" := Str("status"), "new_value" := Str("open"), "type" := Str("set"), "user" := Str("u"), "timestamp" := now],
      now) == Err(InvalidLogEntry("Log"))
  {
    var data := map["key" := Str("status"), "new_value" := Str("open"), "type" := Str("set"), "user" := Str("u"), "timestamp" := now];
    LogEntry.AdmissibleSpec(data.Keys);
    assert "previous_value" !in data.Keys && "explanation" !in data.Keys;
    LogConstruct(data, now);
  }

  // ---------------------------------------------------------------------------
  // Links and comments

  /** A link is built exactly when it has `href` and `icon`, and nothing but `href`, `title` and `icon`. */
  lemma LinkConstruct(data: map<string, Value>, now: Value)
    ensures Construct(LinkModel, data, now).Ok? <==>
      "href" in data && "icon" in data && data.Keys <= {"href", "title", "icon"}
  {
    var fs := LinkModel.fields;
    assert fs[0].name == "href" && fs[1].name == "title" && fs[2].name == "icon";
    assert FieldNames(LinkModel) == {"href", "title", "icon"};
    assert RequiredNames(LinkModel) == {"href", "icon"};
    FlatConstruct(LinkModel, data, now);
  }

  /** What each `Comment` field resolves to. */
  lemma CommentFieldValues(data: map<string, Value>, now: Value)
    ensures FieldValue(CommentModel, 0, data, now).Ok? <==> "id" in data
    ensures FieldValue(CommentModel, 1, data, now) == Ok(if "timestamp" in data then data["timestamp"] else now)
    ensures FieldValue(CommentModel, 2, data, now) == Ok(if "modified" in data then data["modified"] else now)
    ensures FieldValue(CommentModel, 3, data, now).Ok? <==> "value" in data
    ensures FieldValue(CommentModel, 4, data, now).Ok? <==> "user" in data
    ensures FieldValue(CommentModel, 5, data, now) ==
      if "reactions" !in data then Ok(Obj(map[]))
      else if data["reactions"].Obj? then Ok(data["reactions"])
      else Err(FieldTypeMismatch("Comment", "reactions"))
  {
    CommentLeadingFields(data, now);
    CommentTrailingFields(data, now);
  }

  /** The identity and timestamps of a comment. */
  lemma CommentLeadingFields(data: map<string, Value>, now: Value)
    ensures FieldValue(CommentModel, 0, data, now).Ok? <==> "id" in data
    ensures FieldValue(CommentModel, 1, data, now) == Ok(if "timestamp" in data then data["timestamp"] else now)
    ensures FieldValue(CommentModel, 2, data, now) == Ok(if "modified" in data then data["modified"] else now)
  {
  }

  /** The text, author and reactions of a comment. */
  lemma CommentTrailingFields(data: map<string, Value>, now: Value)
    ensures FieldValue(CommentModel, 3, data, now).Ok? <==> "value" in data
    ensures FieldValue(CommentModel, 4, data, now).Ok? <==> "user" in data
    ensures FieldValue(CommentModel, 5, data, now) ==
      if "reactions" !in data then Ok(Obj(map[]))
      else if data["reactions"].Obj? then Ok(data["reactions"])
      else Err(FieldTypeMismatch("Comment", "reactions"))
  {
  }

  /** The six fields of a comment. */
  lemma CommentFieldNames()
    ensures FieldNames(CommentModel) == CommentNames
  {
    var fs := CommentModel.fields;
    assert fs[0].name == "id" && fs[1].name == "timestamp" && fs[2].name == "modified";
    assert fs[3].name == "value" && fs[4].name == "user" && fs[5].name == "reactions";
  }

  const CommentNames: set<string> := {"id", "timestamp", "modified", "value", "user", "reactions"}

  /**
    A comment is built exactly when it has `id`, `value` and `user`, any
    `reactions` it carries is a mapping, and it has no key besides its six
    fields.
  */
  lemma CommentConstruct(data: map<string, Value>, now: Value)
    ensures Construct(CommentModel, data, now).Ok? <==>
      && "id" in data && "value" in data && "user" in data
      && ("reactions" in data ==> data["reactions"].Obj?)
      && data.Keys <= CommentNames
  {
    CommentFieldValues(data, now);
    CommentFieldNames();
    ConstructSpec(CommentModel, data, now);
    if "id" in data && "value" in data && "user" in data && ("reactions" in data ==> data["reactions"].Obj?) {
      forall i | 0 <= i < 6
        ensures FieldValue(CommentModel, i, data, now).Ok?
      {
      }
    }
  }

  /** A built comment holds exactly its six fields. */
  lemma CommentKeys(data: map<string, Value>, now: Value)
    requires Construct(CommentModel, data, now).Ok?
    ensures Construct(CommentModel, data, now).value.Keys == CommentNames
  {
    CommentFieldNames();
    ConstructSpec(CommentModel, data, now);
  }

  /** Absent timestamps of a comment take the time of construction. */
  lemma CommentTimestamps(data: map<string, Value>, now: Value)
    requires Construct(CommentModel, data, now).Ok?
    ensures "timestamp" in Construct(CommentModel, data, now).value
    ensures "modified" in Construct(CommentModel, data, now).value
    ensures Construct(CommentModel, data, now).value["timestamp"] == if "timestamp" in data then data["timestamp"] else now
    ensures Construct(CommentModel, data, now).value["modified"] == if "modified" in data then data["modified"] else now
  {
    CommentFieldValues(data, now);
    ConstructBuilds(CommentModel, data, now);
    BuildFieldsAt(CommentModel, 0, data, now, 1);
    BuildFieldsAt(CommentModel, 0, data, now, 2);
  }

  /** Absent reactions of a comment are the empty mapping. */
  lemma CommentReactions(data: map<string, Value>, now: Value)
    requires Construct(CommentModel, data, now).Ok?
    ensures "reactions" in Construct(CommentModel, data, now).value
    ensures Construct(CommentModel, data, now).value["reactions"] == if "reactions" in data then data["reactions"] else Obj(map[])
  {
    CommentFieldValues(data, now);
    ConstructBuilds(CommentModel, data, now);
    BuildFieldsAt(CommentModel, 0, data, now, 5);
  }

  /** What each `Header` field resolves to: text kept (absent as `Null`), `indicators` a list or a failure. */
  lemma HeaderFieldValues(data: map<string, Value>, now: Value)
    ensures FieldValue(HeaderModel, 0, data, now) == Ok(if "threat" in data then data["threat"] else Null)
    ensures FieldValue(HeaderModel, 1, data, now) == Ok(if "target" in data then data["target"] else Null)
    ensures FieldValue(HeaderModel, 2, data, now).Ok? <==> ("indicators" in data ==> data["indicators"].List?)
    ensures FieldValue(HeaderModel, 3, data, now) == Ok(if "summary" in data then data["summary"] else Null)
  {
    var f := HeaderModel.fields[2];
    if "indicators" in data && data["indicators"].List? {
      var vs := data["indicators"].items;
      CoerceListSpec("Header", "indicators", Text, vs, now);
      assert Coerce("Header", "indicators", f.kind, data["indicators"], now) ==
        CoerceList("Header", "indicators", Text, vs, now);
    } else if "indicators" !in data {
      EmptyListResolves("Header", f, data, now);
    }
  }

  /**
    An outline header is built exactly when any `indicators` it carries is a
    list, and it has no key besides its four fields; all of them are optional.
  */
  lemma HeaderConstruct(data: map<string, Value>, now: Value)
    ensures Construct(HeaderModel, data, now).Ok? <==>
      ("indicators" in data ==> data["indicators"].List?) && data.Keys <= {"threat", "target", "indicators", "summary"}
  {
    var fs := HeaderModel.fields;
    assert fs[0].name == "threat" && fs[1].name == "target" && fs[2].name == "indicators" && fs[3].name == "summary";
    assert FieldNames(HeaderModel) == {"threat", "target", "indicators", "summary"};
    HeaderFieldValues(data, now);
    ConstructSpec(HeaderModel, data, now);
    if "indicators" in data ==> data["indicators"].List? {
      forall i | 0 <= i < 4
        ensures FieldValue(HeaderModel, i, data, now).Ok?
      {
      }
    }
  }

  // ---------------------------------------------------------------------------
  // Hits

  /** `id`, `analytic`, `hash` and `score` are the fields a hit cannot do without. */
  lemma HitRequiredNames()
    ensures RequiredNames(HowlerDataModel) == {"id", "analytic", "hash", "score"}
  {
    var fs := HowlerDataModel.fields;
    assert fs[0].name == "id" && fs[1].name == "analytic" && fs[7].name == "hash" && fs[15].name == "score";
  }

  /** A hit built from raw input had all four required fields in it. */
  lemma HitRequiresFields(data: map<string, Value>, now: Value)
    requires Construct(HowlerDataModel, data, now).Ok?
    ensures "id" in data && "analytic" in data && "hash" in data && "score" in data
  {
    HitRequiredNames();
    RequiredPresent(HowlerDataModel, data, now);
  }

  /** Field `i` of a built hit holds what its declaration resolves to. */
  lemma HitFieldAt(data: map<string, Value>, now: Value, i: nat)
    requires i < |HowlerDataModel.fields|
    requires Construct(HowlerDataModel, data, now).Ok?
    ensures HowlerDataModel.fields[i].name in Construct(HowlerDataModel, data, now).value
    ensures Resolve(HowlerDataModel.name, HowlerDataModel.fields[i], data, now).Ok?
    ensures Construct(HowlerDataModel, data, now).value[HowlerDataModel.fields[i].name] ==
      Resolve(HowlerDataModel.name, HowlerDataModel.fields[i], data, now).value
  {
    HitFieldsDistinct();
    DistinctFirst(HowlerDataModel, i);
    ConstructBuilds(HowlerDataModel, data, now);
    BuildFieldsAt(HowlerDataModel, 0, data, now, i);
  }

  /** A scalar field `f` declared at `i` of a built hit holds its input or its default. */
  lemma HitScalarField(data: map<string, Value>, now: Value, i: nat, f: Field)
    requires i < |HowlerDataModel.fields| && HowlerDataModel.fields[i] == f
    requires Primitive(f.kind) && f.default.Given?
    requires Construct(HowlerDataModel, data, now).Ok?
    ensures f.name in Construct(HowlerDataModel, data, now).value
    ensures Construct(HowlerDataModel, data, now).value[f.name] == if f.name in data then data[f.name] else f.default.value
  {
    HitFieldAt(data, now, i);
    PrimitiveResolve(HowlerDataModel.name, f, data, now);
  }

  /** The identity group declares each of its names once. */
  lemma IdentityFieldNames()
    ensures |HitIdentityFields| == 10
    ensures DistinctNames(HitIdentityFields)
    ensures NameSet(HitIdentityFields) == IdentityNames
  {
    assert HitIdentityFields[0].name == "id";
    assert HitIdentityFields[1].name == "analytic";
    assert HitIdentityFields[2].name == "assignment";
    assert HitIdentityFields[3].name == "bundles";
    assert HitIdentityFields[4].name == "data";
    assert HitIdentityFields[5].name == "links";
    assert HitIdentityFields[6].name == "detection";
    assert HitIdentityFields[7].name == "hash";
    assert HitIdentityFields[8].name == "hits";
    assert HitIdentityFields[9].name == "is_bundle";
  }

  /** The metric group declares each of its names once. */
  lemma MetricFieldNames()
    ensures |HitMetricFields| == 6
    ensures DistinctNames(HitMetricFields)
    ensures NameSet(HitMetricFields) == MetricNames
  {
    assert HitMetricFields[0].name == "related";
    assert HitMetricFields[1].name == "reliability";
    assert HitMetricFields[2].name == "severity";
    assert HitMetricFields[3].name == "volume";
    assert HitMetricFields[4].name == "confidence";
    assert HitMetricFields[5].name == "score";
  }

  /** The triage group declares each of its names once. */
  lemma TriageFieldNames()
    ensures |HitTriageFields| == 5
    ensures DistinctNames(HitTriageFields)
    ensures NameSet(HitTriageFields) == TriageNames
  {
    assert HitTriageFields[0].name == "status";
    assert HitTriageFields[1].name == "scrutiny";
    assert HitTriageFields[2].name == "escalation";
    assert HitTriageFields[3].name == "assessment";
    assert HitTriageFields[4].name == "rationale";
  }

  /** The annotation group declares each of its names once. */
  lemma AnnotationFieldNames()
    ensures |HitAnnotationFields| == 11
    ensures DistinctNames(HitAnnotationFields)
    ensures NameSet(HitAnnotationFields) == AnnotationNames
  {
    assert HitAnnotationFields[0].name == "comment";
    assert HitAnnotationFields[1].name == "log";
    assert HitAnnotationFields[2].name == "retained";
    assert HitAnnotationFields[3].name == "monitored";
    assert HitAnnotationFields[4].name == "reported";
    assert HitAnnotationFields[5].name == "mitigated";
    assert HitAnnotationFields[6].name == "outline";
    assert HitAnnotationFields[7].name == "labels";
    assert HitAnnotationFields[8].name == "votes";
    assert HitAnnotationFields[9].name == "dossier";
    assert HitAnnotationFields[10].name == "viewers";
  }

  /** Names of the identity, bundling and provenance fields. */
  const IdentityNames: set<string> := {"id", "analytic", "assignment", "bundles", "data", "links", "detection", "hash", "hits", "is_bundle"}

  /** Names of the related hits and scores fields. */
  const MetricNames: set<string> := {"related", "reliability", "severity", "volume", "confidence", "score"}

  /** Names of the triage state fields. */
  const TriageNames: set<string> := {"status", "scrutiny", "escalation", "assessment", "rationale"}

  /** Names of the annotations and collaboration fields. */
  const AnnotationNames: set<string> := {"comment", "log", "retained", "monitored", "reported", "mitigated", "outline", "labels", "votes", "dossier", "viewers"}

  /** No name is declared in two of the hit field groups. */
  lemma GroupsDisjoint()
    ensures NameSet(HitIdentityFields) !! NameSet(HitMetricFields)
    ensures NameSet(HitIdentityFields) + NameSet(HitMetricFields) !! NameSet(HitTriageFields)
    ensures NameSet(HitIdentityFields) + NameSet(HitMetricFields) + NameSet(HitTriageFields) !! NameSet(HitAnnotationFields)
  {
    IdentityFieldNames();
    MetricFieldNames();
    TriageFieldNames();
    AnnotationFieldNames();
    GroupNamesDisjoint();
  }

  /** The four groups' name sets are pairwise disjoint. */
  lemma GroupNamesDisjoint()
    ensures IdentityNames !! MetricNames
    ensures IdentityNames !! TriageNames && MetricNames !! TriageNames
    ensures IdentityNames !! AnnotationNames && MetricNames !! AnnotationNames && TriageNames !! AnnotationNames
  {
    IdentityMetricDisjoint();
    IdentityTriageDisjoint();
    MetricTriageDisjoint();
    IdentityAnnotationDisjoint();
    MetricAnnotationDisjoint();
    TriageAnnotationDisjoint();
  }

  lemma IdentityMetricDisjoint()
    ensures IdentityNames !! MetricNames
  {
  }

  lemma IdentityTriageDisjoint()
    ensures IdentityNames !! TriageNames
  {
  }

  lemma MetricTriageDisjoint()
    ensures MetricNames !! TriageNames
  {
  }

  lemma IdentityAnnotationDisjoint()
    ensures IdentityNames !! AnnotationNames
  {
  }

  lemma MetricAnnotationDisjoint()
    ensures MetricNames !! AnnotationNames
  {
  }

  lemma TriageAnnotationDisjoint()
    ensures TriageNames !! AnnotationNames
  {
  }

  /** `HowlerData` declares 32 fields, no name twice. */
  lemma HitFieldsDistinct()
    ensures |HowlerDataModel.fields| == 32
    ensures DistinctNames(HowlerDataModel.fields)
    ensures FieldNames(HowlerDataModel) == IdentityNames + MetricNames + TriageNames + AnnotationNames
  {
    IdentityFieldNames();
    MetricFieldNames();
    TriageFieldNames();
    AnnotationFieldNames();
    var a, b, c, d := HitIdentityFields, HitMetricFields, HitTriageFields, HitAnnotationFields;
    GroupsDisjoint();
    DistinctConcat(a, b);
    DistinctConcat(a + b, c);
    DistinctConcat(a + b + c, d);
    assert HowlerDataModel.fields == a + b + c + d;
  }

  /** `assignment` defaults to `DEFAULT_ASSIGNMENT`. */
  lemma HitAssignmentDefault(data: map<string, Value>, now: Value)
    requires Construct(HowlerDataModel, data, now).Ok? && "assignment" !in data
    ensures "assignment" in Construct(HowlerDataModel, data, now).value
    ensures Construct(HowlerDataModel, data, now).value["assignment"] == Str(DefaultAssignment)
  {
    HitScalarField(data, now, 2, HitIdentityFields[2]);
  }

  /** A hit is not a bundle unless said so. */
  lemma HitIsBundleDefault(data: map<string, Value>, now: Value)
    requires Construct(HowlerDataModel, data, now).Ok? && "is_bundle" !in data
    ensures "is_bundle" in Construct(HowlerDataModel, data, now).value
    ensures Construct(HowlerDataModel, data, now).value["is_bundle"] == Bool(false)
  {
    HitScalarField(data, now, 9, HitIdentityFields[9]);
  }

  /** A new hit is `open`. */
  lemma HitStatusDefault(data: map<string, Value>, now: Value)
    requires Construct(HowlerDataModel, data, now).Ok? && "status" !in data
    ensures "status" in Construct(HowlerDataModel, data, now).value
    ensures Construct(HowlerDataModel, data, now).value["status"] == Str("open")
  {
    HitScalarField(data, now, 16, HitTriageFields[0]);
  }

  /** A new hit is `unseen`. */
  lemma HitScrutinyDefault(data: map<string, Value>, now: Value)
    requires Construct(HowlerDataModel, data, now).Ok? && "scrutiny" !in data
    ensures "scrutiny" in Construct(HowlerDataModel, data, now).value
    ensures Construct(HowlerDataModel, data, now).value["scrutiny"] == Str("unseen")
  {
    HitScalarField(data, now, 17, HitTriageFields[1]);
  }

  /** A new hit is escalated as a `hit`. */
  lemma HitEscalationDefault(data: map<string, Value>, now: Value)
    requires Construct(HowlerDataModel, data, now).Ok? && "escalation" !in data
    ensures "escalation" in Construct(HowlerDataModel, data, now).value
    ensures Construct(HowlerDataModel, data, now).value["escalation"] == Str("hit")
  {
    HitScalarField(data, now, 18, HitTriageFields[2]);
  }

  /** An absent `labels` resolves to the full `Label` record built from `DEFAULT_LABELS`. */
  lemma LabelsResolves(data: map<string, Value>, now: Value)
    requires "labels" !in data
    ensures Resolve("HowlerData", LabelsField, data, now) == Ok(Obj(EmptyLists(LabelModel)))
  {
    DefaultLabelsShape(now);
    CompoundDefault("HowlerData", LabelsField, data, now, LabelModel, DefaultLabels);
  }

  /** An absent `votes` resolves to the full `Votes` record built from `DEFAULT_VOTES`. */
  lemma VotesResolves(data: map<string, Value>, now: Value)
    requires "votes" !in data
    ensures Resolve("HowlerData", VotesField, data, now) == Ok(Obj(EmptyLists(VotesModel)))
  {
    DefaultVotesShape(now);
    CompoundDefault("HowlerData", VotesField, data, now, VotesModel, DefaultVotes());
  }

  /** Field 28, `labels`, resolves an absent value to the full `Label` record. */
  lemma HitLabelsField(data: map<string, Value>, now: Value)
    requires "labels" !in data
    ensures FieldValue(HowlerDataModel, 28, data, now) == Ok(Obj(EmptyLists(LabelModel)))
  {
    assert HowlerDataModel.fields[28] == HitAnnotationFields[7] == LabelsField;
    LabelsResolves(data, now);
  }

  /** Field 29, `votes`, resolves an absent value to the full `Votes` record. */
  lemma HitVotesField(data: map<string, Value>, now: Value)
    requires "votes" !in data
    ensures FieldValue(HowlerDataModel, 29, data, now) == Ok(Obj(EmptyLists(VotesModel)))
  {
    assert HowlerDataModel.fields[29] == HitAnnotationFields[8] == VotesField;
    VotesResolves(data, now);
  }

  /** An absent `labels` builds the full `Label` record from `DEFAULT_LABELS`: eight empty lists. */
  lemma HitLabelsDefault(data: map<string, Value>, now: Value)
    requires Construct(HowlerDataModel, data, now).Ok? && "labels" !in data
    ensures "labels" in Construct(HowlerDataModel, data, now).value
    ensures Construct(HowlerDataModel, data, now).value["labels"] == Obj(EmptyLists(LabelModel))
  {
    HitFieldAt(data, now, 28);
    HitLabelsField(data, now);
  }

  /** An absent `votes` builds `Votes` from `DEFAULT_VOTES`: three empty lists. */
  lemma HitVotesDefault(data: map<string, Value>, now: Value)
    requires Construct(HowlerDataModel, data, now).Ok? && "votes" !in data
    ensures "votes" in Construct(HowlerDataModel, data, now).value
    ensures Construct(HowlerDataModel, data, now).value["votes"] == Obj(EmptyLists(VotesModel))
  {
    HitFieldAt(data, now, 29);
    HitVotesField(data, now);
  }

  // ---------------------------------------------------------------------------
  // Which inputs make a hit

  /** Every non-required identity field resolves without input. */
  lemma IdentityDefaultsResolve(now: Value)
    ensures forall j :: 0 <= j < |HitIdentityFields| && !Required(HitIdentityFields[j]) ==>
      Resolve("HowlerData", HitIdentityFields[j], map[], now).Ok?
  {
    var g := HitIdentityFields;
    IdentityListsResolve(now);
    PrimitiveResolve("HowlerData", g[2], map[], now);
    PrimitiveResolve("HowlerData", g[6], map[], now);
    PrimitiveResolve("HowlerData", g[9], map[], now);
    forall j | 0 <= j < |g| && !Required(g[j])
      ensures Resolve("HowlerData", g[j], map[], now).Ok?
    {
      // One empty branch per index, so that the solver takes the fields one at a time.
      if j == 0 {} else if j == 1 {} else if j == 2 {} else if j == 3 {} else if j == 4 {}
      else if j == 5 {} else if j == 6 {} else if j == 7 {} else if j == 8 {} else {}
    }
  }

  /** `bundles`, `data`, `links` and `hits` default to empty lists. */
  lemma IdentityListsResolve(now: Value)
    ensures Resolve("HowlerData", HitIdentityFields[3], map[], now) == Ok(List([]))
    ensures Resolve("HowlerData", HitIdentityFields[4], map[], now) == Ok(List([]))
    ensures Resolve("HowlerData", HitIdentityFields[5], map[], now) == Ok(List([]))
    ensures Resolve("HowlerData", HitIdentityFields[8], map[], now) == Ok(List([]))
  {
    var g := HitIdentityFields;
    EmptyListResolves("HowlerData", g[3], map[], now);
    EmptyListResolves("HowlerData", g[4], map[], now);
    EmptyListResolves("HowlerData", g[5], map[], now);
    EmptyListResolves("HowlerData", g[8], map[], now);
  }

  /** Every non-required metric field resolves without input. */
  lemma MetricDefaultsResolve(now: Value)
    ensures forall j :: 0 <= j < |HitMetricFields| && !Required(HitMetricFields[j]) ==>
      Resolve("HowlerData", HitMetricFields[j], map[], now).Ok?
  {
    var g := HitMetricFields;
    EmptyListResolves("HowlerData", g[0], map[], now);
    PrimitiveResolve("HowlerData", g[1], map[], now);
    PrimitiveResolve("HowlerData", g[2], map[], now);
    PrimitiveResolve("HowlerData", g[3], map[], now);
    PrimitiveResolve("HowlerData", g[4], map[], now);
  }

  /** Every triage field resolves without input. */
  lemma TriageDefaultsResolve(now: Value)
    ensures forall j :: 0 <= j < |HitTriageFields| ==> Resolve("HowlerData", HitTriageFields[j], map[], now).Ok?
  {
    var g := HitTriageFields;
    PrimitiveResolve("HowlerData", g[0], map[], now);
    PrimitiveResolve("HowlerData", g[1], map[], now);
    PrimitiveResolve("HowlerData", g[2], map[], now);
    PrimitiveResolve("HowlerData", g[3], map[], now);
    PrimitiveResolve("HowlerData", g[4], map[], now);
  }

  /** Every annotation field resolves without input; `labels` and `votes` build their default records. */
  lemma AnnotationDefaultsResolve(now: Value)
    ensures forall j :: 0 <= j < |HitAnnotationFields| ==> Resolve("HowlerData", HitAnnotationFields[j], map[], now).Ok?
  {
    var g := HitAnnotationFields;
    AnnotationListsResolve(now);
    AnnotationScalarsResolve(now);
    assert g[7] == LabelsField && g[8] == VotesField;
    LabelsResolves(map[], now);
    VotesResolves(map[], now);
    forall j | 0 <= j < |g|
      ensures Resolve("HowlerData", g[j], map[], now).Ok?
    {
      // One empty branch per index, so that the solver takes the fields one at a time.
      if j == 0 {} else if j == 1 {} else if j == 2 {} else if j == 3 {} else if j == 4 {} else if j == 5 {}
      else if j == 6 {} else if j == 7 {} else if j == 8 {} else if j == 9 {} else {}
    }
  }

  /** The optional annotation fields are absent without input. */
  lemma AnnotationScalarsResolve(now: Value)
    ensures Resolve("HowlerData", HitAnnotationFields[2], map[], now) == Ok(Null)
    ensures Resolve("HowlerData", HitAnnotationFields[3], map[], now) == Ok(Null)
    ensures Resolve("HowlerData", HitAnnotationFields[4], map[], now) == Ok(Null)
    ensures Resolve("HowlerData", HitAnnotationFields[5], map[], now) == Ok(Null)
    ensures Resolve("HowlerData", HitAnnotationFields[6], map[], now) == Ok(Null)
    ensures Resolve("HowlerData", HitAnnotationFields[9], map[], now) == Ok(Null)
  {
    var g := HitAnnotationFields;
    AbsentOptionalResolves("HowlerData", g[2], map[], now);
    AbsentOptionalResolves("HowlerData", g[3], map[], now);
    AbsentOptionalResolves("HowlerData", g[4], map[], now);
    AbsentOptionalResolves("HowlerData", g[5], map[], now);
    AbsentOptionalResolves("HowlerData", g[6], map[], now);
    AbsentOptionalResolves("HowlerData", g[9], map[], now);
  }

  /** The annotation lists `comment`, `log` and `viewers` default to empty. */
  lemma AnnotationListsResolve(now: Value)
    ensures Resolve("HowlerData", HitAnnotationFields[0], map[], now) == Ok(List([]))
    ensures Resolve("HowlerData", HitAnnotationFields[1], map[], now) == Ok(List([]))
    ensures Resolve("HowlerData", HitAnnotationFields[10], map[], now) == Ok(List([]))
  {
    var g := HitAnnotationFields;
    EmptyListResolves("HowlerData", g[0], map[], now);
    EmptyListResolves("HowlerData", g[1], map[], now);
    EmptyListResolves("HowlerData", g[10], map[], now);
  }

  /** Every field of `HowlerData` but the four required ones resolves without input. */
  lemma HitDefaultsResolve(now: Value)
    ensures forall i :: 0 <= i < |HowlerDataModel.fields| && !Required(HowlerDataModel.fields[i]) ==>
      FieldValue(HowlerDataModel, i, map[], now).Ok?
  {
    var a, b, c, d := HitIdentityFields, HitMetricFields, HitTriageFields, HitAnnotationFields;
    IdentityDefaultsResolve(now);
    MetricDefaultsResolve(now);
    TriageDefaultsResolve(now);
    AnnotationDefaultsResolve(now);
    var fs := HowlerDataModel.fields;
    assert fs == a + b + c + d;
    forall i | 0 <= i < |fs| && !Required(fs[i])
      ensures FieldValue(HowlerDataModel, i, map[], now).Ok?
    {
      if i < 10 {
        assert fs[i] == a[i];
      } else if i < 16 {
        assert fs[i] == b[i - 10];
      }
    }
  }

  /** The required fields of `HowlerData` are all scalars. */
  lemma HitRequiredArePrimitive()
    ensures forall i :: 0 <= i < |HowlerDataModel.fields| && Required(HowlerDataModel.fields[i]) ==>
      Primitive(HowlerDataModel.fields[i].kind)
  {
    var a, b, c, d := HitIdentityFields, HitMetricFields, HitTriageFields, HitAnnotationFields;
    var fs := HowlerDataModel.fields;
    assert fs == a + b + c + d;
    forall i | 0 <= i < |fs| && Required(fs[i])
      ensures Primitive(fs[i].kind)
    {
      if i < 10 {
        assert fs[i] == a[i];
        // Empty branches: a case split so the solver checks each required field by index.
        if i == 0 {} else if i == 1 {} else if i == 7 {}
      } else if i < 16 {
        assert fs[i] == b[i - 10];
      }
    }
  }

  /** A value for a required name is a value for a scalar field. */
  lemma HitRequiredInputsScalar(data: map<string, Value>)
    requires data.Keys <= {"id", "analytic", "hash", "score"}
    ensures forall i :: 0 <= i < |HowlerDataModel.fields| && HowlerDataModel.fields[i].name in data ==>
      Primitive(HowlerDataModel.fields[i].kind)
  {
    var m := HowlerDataModel;
    HitRequiredNames();
    HitFieldsDistinct();
    HitRequiredArePrimitive();
    forall i | 0 <= i < |m.fields| && m.fields[i].name in data
      ensures Primitive(m.fields[i].kind)
    {
      assert m.fields[i].name in RequiredNames(m);
      var k :| 0 <= k < |m.fields| && Required(m.fields[k]) && m.fields[k].name == m.fields[i].name;
      assert k == i;
    }
  }

  /**
    Given only values among `id`, `analytic`, `hash` and `score`, a hit is
    built exactly when all four are given: every other field has a default.
  */
  lemma HitFromRequiredFields(data: map<string, Value>, now: Value)
    requires data.Keys <= {"id", "analytic", "hash", "score"}
    ensures Construct(HowlerDataModel, data, now).Ok? <==> data.Keys == {"id", "analytic", "hash", "score"}
  {
    HitRequiredNames();
    HitRequiredInputsScalar(data);
    HitDefaultsResolve(now);
    ScalarInputConstruct(HowlerDataModel, data, now);
  }

  /**
    A hit whose `log` list holds an entry that neither explains nor records
    a full change cannot be built: the `Log` guard runs on every entry.
  */
  lemma BadLogEntryRejectsHit(data: map<string, Value>, now: Value, j: nat)
    requires "log" in data && data["log"].List? && j < |data["log"].items|
    requires data["log"].items[j].Obj? && !LogEntry.Admissible(data["log"].items[j].entries.Keys)
    ensures Construct(HowlerDataModel, data, now).Err?
  {
    var m := HowlerDataModel;
    var f := HitAnnotationFields[1];
    assert m.fields == HitIdentityFields + HitMetricFields + HitTriageFields + HitAnnotationFields;
    assert m.fields[22] == f;
    var items := data["log"].items;
    LogConstruct(items[j].entries, now);
    assert Coerce("HowlerData", "log", Compound(LogModel), items[j], now).Err?;
    CoerceListSpec("HowlerData", "log", Compound(LogModel), items, now);
    assert Coerce("HowlerData", "log", ListOf(Compound(LogModel)), data["log"], now) ==
      CoerceList("HowlerData", "log", Compound(LogModel), items, now);
    assert f == Field("log", ListOf(Compound(LogModel)), false, Given(List([])));
    assert Resolve("HowlerData", f, data, now).Err?;
    assert FieldValue(m, 22, data, now).Err?;
    ConstructSpec(m, data, now);
  }

  // ---------------------------------------------------------------------------
  // Enumeration defaults

  /** An enumeration field's constant default is one of that enumeration's listed values. */
  predicate DefaultListed(f: Field)
  {
    f.kind.EnumOf? && f.default.Given? ==>
      f.default.value.Str? && f.default.value.s in ListValues(f.kind.table)
  }

  /** `open` is a `HitStatus` value. */
  lemma OpenListed()
    ensures "open" in ListValues(HitStatusTable)
  {
    var d := HitStatusTable.declared;
    assert NoAliases(d);
    CanonicalWithoutAliases(d);
    assert Values(d)[0] == "open";
  }

  /** `unseen` is a `Scrutiny` value. */
  lemma UnseenListed()
    ensures "unseen" in ListValues(ScrutinyTable)
  {
    var d := ScrutinyTable.declared;
    assert NoAliases(d);
    CanonicalWithoutAliases(d);
    assert Values(d)[0] == "unseen";
  }

  /** `hit` is an `Escalation` value. */
  lemma HitListed()
    ensures Hit in ListValues(EscalationTable)
  {
    var d := EscalationTable.declared;
    assert NoAliases(d);
    CanonicalWithoutAliases(d);
    assert Values(d)[2] == Hit;
  }

  /** The defaults of `status`, `scrutiny` and `escalation` are members of their enumerations. */
  lemma HitEnumDefaultsListed()
    ensures forall i :: 0 <= i < |HowlerDataModel.fields| ==> DefaultListed(HowlerDataModel.fields[i])
  {
    var a, b, c, d := HitIdentityFields, HitMetricFields, HitTriageFields, HitAnnotationFields;
    var fs := HowlerDataModel.fields;
    assert fs == a + b + c + d;
    OpenListed();
    UnseenListed();
    HitListed();
    forall i | 0 <= i < |fs|
      ensures DefaultListed(fs[i])
    {
      if i < 10 {
        assert fs[i] == a[i];
      } else if i < 16 {
        assert fs[i] == b[i - 10];
      } else if i < 21 {
        assert fs[i] == c[i - 16];
      } else {
        assert fs[i] == d[i - 21];
      }
    }
  }
}
