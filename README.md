# Howler hit schema: enumerations, log-entry rule and record schemas

This project models `howler/odm/models/howler_data.py` of the Howler API. That file declares the data of a Howler hit, in four parts:

- **Flexible enumerations.** `HowlerEnumMeta` and `HowlerEnum` work as follows:
  - `in` accepts a token whose upper-cased, dash-to-underscore form is a member name, or which is, verbatim, a member value.
  - `Enum[token]` normalises the token the same way and looks it up by name only.
  - `list()` gives the member values in declaration order.
- **The enumeration tables.** These are `Scrutiny`, `HitStatus`, `HitStatusTransition`, `HitOperationType`, `Escalation`, `Vote`, `Assessment` and `AssessmentEscalationMap`.
  - The values of `AssessmentEscalationMap` repeat. As in Python's `Enum`, every member after the first one with a given value is an alias.
  - Iteration, `list()` and `in` see only `AMBIGUOUS` and `ATTEMPT`. Name lookup reaches all ten names.
- **The log-entry rule.** `Log.__init__` refuses a raw entry that has no `explanation` unless the entry carries all four keys `key`, `new_value`, `type` and `previous_value`.
- **The record schemas.** These are `Link`, `Comment`, `Log`, `Header`, `Label`, `Votes` and `HowlerData`, with the constants `DEFAULT_VOTES`, `DEFAULT_LABELS` and `DEFAULT_ASSIGNMENT`.

Files and modules:

- `enums.dfy` (`Enums`): the generic enumeration semantics. An enumeration is its sequence of declared `(name, value)` members. `Canonical` keeps the first member for each value; this is what Python iterates over. `Contains` is `__contains__`, `Lookup` is `__getitem__` and `ListValues` is `list()`.
- `enum_tables.dfy` (`EnumTables`): the eight tables, member for member, and what the generic semantics make of them. This includes `EscalationFor`, the escalation that an assessment token stands for.
- `log_entry.dfy` (`LogEntry`): the key-set guard of `Log.__init__`.
- `records.dfy` (`Records`): record schemas as data, and the construction rule assumed of the `odm` library.
  - A field is described by its kind, whether it is optional, and its default.
  - The `odm` library is not part of this model, so its construction rule is stated here as an assumption:
    1. The model's guard (only `Log` has one) runs first.
    2. An input naming an undeclared field is refused.
    3. Each declared field then either takes the input's value, shaped by its kind (nested records are built and lists element by element), or takes its default (`"NOW"` is the construction time, passed in as `now`).
    4. An absent optional field without default is absent (`Null`). A missing field that is neither optional nor defaulted makes construction fail.
- `howler_data.dfy` (`HowlerData`): the seven record schemas, field for field in declaration order, the three default constants, and what the construction rule makes of them.
- `wrappers.dfy` (`Wrappers`): `Option` and `Result`.

Two behaviours of the code are worth noting:

- Only `-` is mapped to `_` before a name is compared; spaces are kept (`HitStatusKeepsSpaces`).
- The `Log` failure message lists all four change keys, not the missing ones. The model records only that the entry is refused (`InvalidLogEntry`).

One quirk is modelled as written: the third `Vote` member is spelled `BEINIGN`. `"benign" in Vote` holds through the value, but `Vote["benign"]` fails (`VoteBenignByValueOnly`, `VoteMisspeltName`).

## Model

| member | source | states |
|---|---|---|
| Enums.Normalize | howler/odm/models/howler_data.py:13-14 | the token comparison form; its contract is stated by `NormalizeAt`, `NormalizeIdempotent`, `NormalizeIgnoresCase`, `NormalizeIgnoresDashes`, `NameFormIsNormal` and `SpaceIsKept` |
| Enums.Canonical | howler/odm/models/howler_data.py:16-17 | the members Python's `Enum` iterates over; stated by `CanonicalMembers`, `CanonicalValues`, `CanonicalWithoutAliases` and `CanonicalOfPrefix` |
| Enums.ListValues | howler/odm/models/howler_data.py:26-27 | `list()`; stated by `CanonicalValues` and `CanonicalWithoutAliases` |
| Enums.Contains | howler/odm/models/howler_data.py:10-18 | `__contains__`; stated by `ContainsSpec`, `ContainsEveryMember` and `ContainsIffLookup` |
| Enums.Lookup | howler/odm/models/howler_data.py:20-21 | `__getitem__`; stated by `LookupSpec`, `LookupAt` and `LookupIgnoresCaseAndDashes` |
| EnumTables.ScrutinyTable | howler/odm/models/howler_data.py:30-35 | `Scrutiny`; stated by `ScrutinyCoherent` and `MembershipIsLookup` |
| EnumTables.HitStatusTable | howler/odm/models/howler_data.py:41-45 | `HitStatus`; stated by `HitStatusCoherent`, `HitStatusSpellings`, `HitStatusLookup` and `HitStatusKeepsSpaces` |
| EnumTables.HitStatusTransitionTable | howler/odm/models/howler_data.py:51-62 | `HitStatusTransition`; stated by `HitStatusTransitionCoherent` |
| EnumTables.HitOperationTypeTable | howler/odm/models/howler_data.py:68-71 | `HitOperationType`; stated by `HitOperationTypeCoherent` |
| EnumTables.EscalationTable | howler/odm/models/howler_data.py:77-81 | `Escalation`; stated by `EscalationCoherent` and `AssessmentEscalationValues` |
| EnumTables.VoteTable | howler/odm/models/howler_data.py:87-90 | `Vote`; stated by `VoteOrder`, `VoteBenignByValueOnly`, `VoteMisspeltName` and `VoteValueIsCaseSensitive` |
| EnumTables.AssessmentTable | howler/odm/models/howler_data.py:96-108 | `Assessment`; stated by `AssessmentCoherent` and `AssessmentOrder` |
| EnumTables.AssessmentEscalationTable | howler/odm/models/howler_data.py:114-124 | `AssessmentEscalationMap`; stated by `AssessmentEscalationCanonical`, `AssessmentEscalationNames` and `AssessmentEscalations` |
| LogEntry.Admissible | howler/odm/models/howler_data.py:184-186 | the key-set guard of `Log.__init__`; stated by `AdmissibleSpec`, `PartialDiffRejected`, `OtherKeysIgnored` and `AdmissibleMonotone` |
| Records.Construct | howler/odm/models/howler_data.py:191 | the assumed `odm` construction; stated by `ConstructSpec`, `UnknownFieldRejected`, `MissingRequiredFails`, `RequiredPresent` and `FlatConstruct` |
| HowlerData.LinkModel | howler/odm/models/howler_data.py:133-139 | `Link`; stated by `LinkConstruct` |
| HowlerData.CommentModel | howler/odm/models/howler_data.py:142-157 | `Comment`; stated by `CommentFieldValues`, `CommentConstruct`, `CommentKeys`, `CommentTimestamps` and `CommentReactions` |
| HowlerData.LogModel | howler/odm/models/howler_data.py:160-191 | `Log`; stated by `LogFieldNames`, `LogRequiredNames`, `LogConstruct` and `LogInit` |
| HowlerData.HeaderModel | howler/odm/models/howler_data.py:194-201 | `Header`; stated by `HeaderFieldValues` and `HeaderConstruct` |
| HowlerData.LabelModel | howler/odm/models/howler_data.py:204-229 | `Label`; stated by `LabelFieldNames` and `DefaultLabelsShape` |
| HowlerData.VotesModel | howler/odm/models/howler_data.py:232-242 | `Votes`; stated by `DefaultVotesKeys` and `DefaultVotesShape` |
| HowlerData.DefaultVotes | howler/odm/models/howler_data.py:245 | `DEFAULT_VOTES`; stated by `DefaultVotesKeys` and `DefaultVotesShape` |
| HowlerData.DefaultLabels | howler/odm/models/howler_data.py:246 | `DEFAULT_LABELS`; stated by `DefaultLabelsShape` |
| HowlerData.DefaultAssignment | howler/odm/models/howler_data.py:247 | `DEFAULT_ASSIGNMENT`; stated by `HitAssignmentDefault` |
| HowlerData.HowlerDataModel | howler/odm/models/howler_data.py:250-387 | `HowlerData`; stated by `HitFieldsDistinct`, `HitRequiredNames`, `HitDefaultsResolve`, `HitFromRequiredFields` and the `Hit…Default` lemmas |
| Enums.FindByName | howler/odm/models/howler_data.py:20-21 | a name is found exactly when some declared member, alias or not, carries it; the member found is declared with that name |
| Enums.FindByValue | howler/odm/models/howler_data.py:20-21 | a value is found exactly when some declared member carries it; the member found is declared with that value |
| Enums.FindByValueFirst | howler/odm/models/howler_data.py:20-21 | the member found by a value is the first one declared with it, so it is the member an alias stands for |
| Enums.NormalizeIdempotent | howler/odm/models/howler_data.py:13-14 | upper-casing and dash replacement applied twice equal applying them once |
| Enums.NormalizeIgnoresCase | howler/odm/models/howler_data.py:14 | a token and its lower-case form normalise alike |
| Enums.NormalizeIgnoresDashes | howler/odm/models/howler_data.py:14 | a token and the same token with `-` turned into `_` normalise alike |
| Enums.NameFormIsNormal | howler/odm/models/howler_data.py:14 | a name made of upper-case letters, digits and `_` is its own normal form |
| Enums.SpaceIsKept | howler/odm/models/howler_data.py:14 | a token containing a space never normalises to an identifier |
| Enums.CanonicalMembers | howler/odm/models/howler_data.py:16-17 | iteration visits a declared member exactly when it is the first declared with its value, i.e. not an alias |
| Enums.CanonicalValues | howler/odm/models/howler_data.py:26-27 | the values iteration yields are pairwise distinct, and they are exactly the declared values |
| Enums.CanonicalWithoutAliases | howler/odm/models/howler_data.py:26-27 | an enumeration without repeated values is iterated in full, in declaration order |
| Enums.CanonicalOfPrefix | howler/odm/models/howler_data.py:26-27 | members whose values all occur in an earlier prefix add nothing to iteration |
| Enums.LookupSpec | howler/odm/models/howler_data.py:20-21 | `Enum[token]` succeeds exactly when the normalised token names a declared member, aliases included; the result is canonical and carries that member's value |
| Enums.ContainsSpec | howler/odm/models/howler_data.py:10-18 | `token in Enum` exactly when the raw token is the value of some declared member, an alias's value included, or the normalised token is the name of a declared member that is not an alias; an alias's name never admits a token |
| Enums.ContainsEveryMember | howler/odm/models/howler_data.py:10-18 | every canonical member is `in` by its value, and by any spelling that normalises to its name, that spelling's lower-case form and its form with `-` turned into `_` |
| Enums.LookupIgnoresCaseAndDashes | howler/odm/models/howler_data.py:21 | lookup gives the same outcome and member for a token, its lower-case form and its underscored form |
| Enums.ContainsIffLookup | howler/odm/models/howler_data.py:10-21 | for an alias-free enumeration whose values normalise to their names, `in` and a successful `Enum[token]` coincide |
| Enums.LookupAt | howler/odm/models/howler_data.py:20-21 | with unique names, any spelling of a declared name, alias or not, looks up the canonical member with that member's value |
| EnumTables.ScrutinyCoherent | howler/odm/models/howler_data.py:30-35 | `Scrutiny` has no repeated value and each value normalises to its member's name |
| EnumTables.HitStatusCoherent | howler/odm/models/howler_data.py:41-45 | the same for `HitStatus` |
| EnumTables.HitStatusTransitionCoherent | howler/odm/models/howler_data.py:51-62 | the same for `HitStatusTransition` |
| EnumTables.HitOperationTypeCoherent | howler/odm/models/howler_data.py:68-71 | the same for `HitOperationType` |
| EnumTables.EscalationCoherent | howler/odm/models/howler_data.py:77-81 | the same for `Escalation` |
| EnumTables.AssessmentCoherent | howler/odm/models/howler_data.py:96-108 | the same for `Assessment` |
| EnumTables.AssessmentEscalationCanonical | howler/odm/models/howler_data.py:114-124 | iteration over `AssessmentEscalationMap` is `AMBIGUOUS`→`miss`, `ATTEMPT`→`evidence`, and `list()` is `[miss, evidence]` |
| EnumTables.AssessmentEscalationNames | howler/odm/models/howler_data.py:96-124 | the mapping and `Assessment` each declare ten distinct names, and the same ones |
| EnumTables.AssessmentEscalationValues | howler/odm/models/howler_data.py:114-124 | every value the mapping iterates over is an `Escalation` value, `miss` or `evidence` |
| EnumTables.AssessmentLookupsAgree | howler/odm/models/howler_data.py:96-124 | a token names a mapping member exactly when it names an `Assessment` member |
| EnumTables.EscalationFor | howler/odm/models/howler_data.py:114-124 | the escalation of an assessment token exists exactly when `Assessment[token]` succeeds, and it is a listed `Escalation` value, `miss` or `evidence` |
| EnumTables.EveryAssessmentEscalates | howler/odm/models/howler_data.py:96-124 | every token `in Assessment` has an escalation, and it is never `alert` nor `hit` |
| EnumTables.AssessmentEscalations | howler/odm/models/howler_data.py:98-124 | any spelling of the five non-threat assessments escalates to `miss`, any spelling of the five threat assessments to `evidence` |
| EnumTables.AssessmentEscalationMembership | howler/odm/models/howler_data.py:16-17 | `token in AssessmentEscalationMap` exactly when it normalises to `AMBIGUOUS` or `ATTEMPT`, or is `miss` or `evidence` |
| EnumTables.CompromiseIsAnAlias | howler/odm/models/howler_data.py:117 | `compromise` is not `in` the mapping, yet `AssessmentEscalationMap["compromise"]` is `ATTEMPT` |
| EnumTables.MembershipIsLookup | howler/odm/models/howler_data.py:30-108 | in `Scrutiny`, `HitStatus`, `HitStatusTransition`, `HitOperationType`, `Escalation` and `Assessment`, `in` and name lookup agree on every token |
| EnumTables.InProgressListed | howler/odm/models/howler_data.py:43 | `IN_PROGRESS` is a canonical `HitStatus` name and `in-progress` a listed value |
| EnumTables.HitStatusSpellings | howler/odm/models/howler_data.py:10-18 | `in-progress`, `In-Progress` and `IN_PROGRESS` are all `in HitStatus` |
| EnumTables.HitStatusLookup | howler/odm/models/howler_data.py:20-21 | `HitStatus["In-Progress"]` is `IN_PROGRESS` |
| EnumTables.HitStatusKeepsSpaces | howler/odm/models/howler_data.py:13-21 | `in progress` is neither `in HitStatus` nor found by name |
| EnumTables.VoteBenignByValueOnly | howler/odm/models/howler_data.py:87-90 | `benign` is `in Vote` through its value, but `Vote["benign"]` fails |
| EnumTables.VoteMisspeltName | howler/odm/models/howler_data.py:90 | `Vote["beinign"]` is the member `BEINIGN` with value `benign` |
| EnumTables.VoteValueIsCaseSensitive | howler/odm/models/howler_data.py:16-18 | values are compared verbatim: `Benign` is no `Vote` |
| EnumTables.AssessmentOrder | howler/odm/models/howler_data.py:96-108 | `Assessment.list()` is the ten values in declaration order |
| EnumTables.VoteOrder | howler/odm/models/howler_data.py:87-90 | `Vote.list()` is `[malicious, obscure, benign]` |
| LogEntry.AdmissibleSpec | howler/odm/models/howler_data.py:184-186 | the guard passes exactly when `explanation` is present or each of the four change keys is |
| LogEntry.PartialDiffRejected | howler/odm/models/howler_data.py:184-189 | without an explanation, any proper part of the four change keys, none included, fails |
| LogEntry.OtherKeysIgnored | howler/odm/models/howler_data.py:184-186 | adding or removing keys other than `explanation` and the four change keys never changes the outcome |
| LogEntry.AdmissibleMonotone | howler/odm/models/howler_data.py:184-186 | adding keys never makes an accepted entry refused |
| Records.ConstructSpec | howler/odm/models/howler_data.py:191 | construction succeeds exactly when the guard passes, no undeclared field is given and every field resolves; the record then holds exactly the declared fields, each with its resolved value |
| Records.UnknownFieldRejected | howler/odm/models/howler_data.py:191 | an input naming an undeclared field is refused; once the guard has passed, the error lists the undeclared names |
| Records.MissingRequiredFails | howler/odm/models/howler_data.py:191 | a missing field that is neither optional nor defaulted makes construction fail |
| Records.RequiredPresent | howler/odm/models/howler_data.py:191 | a successful construction had every required field in its input |
| Records.PrimitiveFieldValue | howler/odm/models/howler_data.py:191 | in a built record, a scalar field holds the input value, its default, the construction time or `Null` |
| Records.FlatConstruct | howler/odm/models/howler_data.py:183-191 | a record of scalar fields is built exactly when the guard passes and the input names every required field and no undeclared one |
| Records.EmptyListResolves | howler/odm/models/howler_data.py:198-200 | an absent list field defaulting to `[]` is the empty list |
| Records.AbsentFieldValue | howler/odm/models/howler_data.py:191 | an absent field resolves as it would from an empty input |
| Records.ScalarInputConstruct | howler/odm/models/howler_data.py:191 | given values only for scalar fields, an unguarded record whose non-required fields all resolve without input is built exactly when the required fields are given and no undeclared one |
| Records.CoerceListSpec | howler/odm/models/howler_data.py:272-276 | a list is built exactly when every element is; it keeps length and order, and each element is the built input element |
| Records.AllEmptyLists | howler/odm/models/howler_data.py:204-242 | a record made only of empty-list fields, given empty lists for some of them, is built with every field empty |
| HowlerData.LabelFieldNames | howler/odm/models/howler_data.py:205-229 | `Label` has the eight categories `assignments` … `operation` |
| HowlerData.DefaultLabelsShape | howler/odm/models/howler_data.py:246 | `DEFAULT_LABELS` names a strict subset of the categories, yet the `Label` built from it holds all eight, each empty |
| HowlerData.DefaultVotesKeys | howler/odm/models/howler_data.py:233-245 | the keys of `DEFAULT_VOTES` are the three `Vote` values, which are the field names of `Votes` |
| HowlerData.DefaultVotesShape | howler/odm/models/howler_data.py:233-245 | `DEFAULT_VOTES` maps each key to `[]`, and the `Votes` built from it holds all three lists, each empty |
| HowlerData.LogInit | howler/odm/models/howler_data.py:183-191 | `Log(data)` succeeds exactly when data is given, the guard passes, `timestamp` and `user` are present and no other key than the eight fields is; a failing guard gives `InvalidLogEntry` |
| HowlerData.LogRequiredNames | howler/odm/models/howler_data.py:162-181 | only `timestamp` and `user` are required in `Log` |
| HowlerData.LogFieldNames | howler/odm/models/howler_data.py:161-181 | `Log` has its eight fields |
| HowlerData.LogConstruct | howler/odm/models/howler_data.py:161-191 | a log entry is built exactly when it passes the guard, has `timestamp` and `user`, and has no undeclared key; a failing guard gives `InvalidLogEntry` |
| HowlerData.ExplainedEntry | howler/odm/models/howler_data.py:184 | an entry with explanation, user and timestamp is accepted without change keys |
| HowlerData.BareEntryRefused | howler/odm/models/howler_data.py:184-189 | an entry with neither explanation nor change keys is refused |
| HowlerData.PartialChangeRefused | howler/odm/models/howler_data.py:184-189 | `key`, `new_value` and `type` without `previous_value` are refused |
| HowlerData.LinkConstruct | howler/odm/models/howler_data.py:134-139 | a link is built exactly when `href` and `icon` are given and nothing besides `href`, `title`, `icon` |
| HowlerData.CommentFieldValues | howler/odm/models/howler_data.py:143-157 | `id`, `value` and `user` resolve only when given, the timestamps fall back to the construction time, and `reactions` defaults to `{}` and must be a mapping |
| HowlerData.CommentConstruct | howler/odm/models/howler_data.py:143-157 | a comment is built exactly when it has `id`, `value` and `user`, any `reactions` is a mapping, and no undeclared key is given |
| HowlerData.CommentKeys | howler/odm/models/howler_data.py:143-157 | a built comment holds exactly its six fields |
| HowlerData.CommentTimestamps | howler/odm/models/howler_data.py:145-150 | absent `timestamp` and `modified` take the construction time |
| HowlerData.CommentReactions | howler/odm/models/howler_data.py:153-157 | absent `reactions` is the empty mapping |
| HowlerData.HeaderFieldValues | howler/odm/models/howler_data.py:195-201 | `threat`, `target` and `summary` hold the input or `Null`; `indicators` resolves exactly when absent or a list |
| HowlerData.HeaderConstruct | howler/odm/models/howler_data.py:195-201 | an outline header is built exactly when any `indicators` is a list and no undeclared key is given |
| HowlerData.HitRequiredNames | howler/odm/models/howler_data.py:256-318 | the required fields of `HowlerData` are `id`, `analytic`, `hash` and `score` |
| HowlerData.HitRequiresFields | howler/odm/models/howler_data.py:256-318 | a built hit had `id`, `analytic`, `hash` and `score` in its input |
| HowlerData.HitFieldsDistinct | howler/odm/models/howler_data.py:255-387 | `HowlerData` declares 32 fields with distinct names |
| HowlerData.HitFieldAt | howler/odm/models/howler_data.py:255-387 | every field of a built hit holds the value its declaration resolves to |
| HowlerData.HitScalarField | howler/odm/models/howler_data.py:255-387 | a defaulted scalar field of a built hit holds the input value or its default |
| HowlerData.HitAssignmentDefault | howler/odm/models/howler_data.py:247-261 | absent `assignment` is `DEFAULT_ASSIGNMENT`, `unassigned` |
| HowlerData.HitIsBundleDefault | howler/odm/models/howler_data.py:288-290 | absent `is_bundle` is false |
| HowlerData.HitStatusDefault | howler/odm/models/howler_data.py:319-321 | absent `status` is `open` |
| HowlerData.HitScrutinyDefault | howler/odm/models/howler_data.py:322-326 | absent `scrutiny` is `unseen` |
| HowlerData.HitEscalationDefault | howler/odm/models/howler_data.py:327-331 | absent `escalation` is `hit` |
| HowlerData.HitLabelsDefault | howler/odm/models/howler_data.py:370-374 | absent `labels` is the `Label` with all eight categories empty |
| HowlerData.HitVotesDefault | howler/odm/models/howler_data.py:375-379 | absent `votes` is the `Votes` with all three lists empty |
| HowlerData.HitDefaultsResolve | howler/odm/models/howler_data.py:255-387 | every field of `HowlerData` other than the four required ones resolves without input |
| HowlerData.HitRequiredArePrimitive | howler/odm/models/howler_data.py:256-318 | the required fields of `HowlerData` are scalars |
| HowlerData.HitFromRequiredFields | howler/odm/models/howler_data.py:255-387 | given only values among `id`, `analytic`, `hash` and `score`, a hit is built exactly when all four are given |
| HowlerData.BadLogEntryRejectsHit | howler/odm/models/howler_data.py:348-352 | a hit whose `log` holds an entry refused by the `Log` guard cannot be built |
| HowlerData.HitEnumDefaultsListed | howler/odm/models/howler_data.py:319-331 | the default of every enumeration field of `HowlerData` is a listed value of its enumeration |

## Left out

- Case mapping: `str.upper()` is modelled on ASCII letters only. Non-ASCII case mappings are not modelled.
- `str(obj)` of a non-string token: tokens are strings. The enum members' `__str__` and `AssessmentEscalationMap.__int__` are display conversions and are not modelled. `__int__` on a string value would fail anyway.
- The `odm` library is not part of this model. Its construction rule is the stated assumption in `Records`. Under that assumption:
  - `Keyword`, `Text`, `UUID`, `SHA256`, `Date`, `Boolean`, `Float` and `Enum` values are kept as given. Their coercion and validation, including the check of an `Enum` value against its table, are not modelled.
  - `FlattenedObject` (`dossier`) accepts any value.
  - Defaults are values, so the deep copying of mutable defaults has no counterpart.
  - Index and store flags, descriptions and serialisation are not modelled.
- `Log.__init__` forwards `*args, **kwargs` to the `odm` constructor. The model's construction takes only the raw data and the construction time.
- The clock: a `"NOW"` default takes the construction time, passed in as `now`.
- Floats (`reliability`, `severity`, `volume`, `confidence`, `score`) are opaque values with no arithmetic.
- The text of the `HowlerValueError` message is not modelled. The model keeps only that the entry is refused (`InvalidLogEntry`).
- `Log(None)`: Python raises a `TypeError` from the guard's `in` test. The model gives `NoInput`.
- The rest of the repository (`build_scripts/coverage_reports.py`, `build_scripts/type_check.py`, `howler/cronjobs/__init__.py`) is build tooling and background scheduling, and is not part of this model.
