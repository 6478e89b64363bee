/**
  The enumeration classes of the hit schema, member for member and in
  declaration order, and what the generic semantics of `Enums` make of them.
*/
module EnumTables {
  import opened Wrappers
  import opened Enums

  const ScrutinyTable := EnumTable([
    Member("UNSEEN", "unseen"),
    Member("SURVEYED", "surveyed"),
    Member("SCANNED", "scanned"),
    Member("INSPECTED", "inspected"),
    Member("INVESTIGATED", "investigated")])

  const HitStatusTable := EnumTable([
    Member("OPEN", "open"),
    Member("IN_PROGRESS", "in-progress"),
    Member("ON_HOLD", "on-hold"),
    Member("RESOLVED", "resolved")])

  const HitStatusTransitionTable := EnumTable([
    Member("ASSIGN_TO_ME", "assign_to_me"),
    Member("ASSIGN_TO_OTHER", "assign_to_other"),
    Member("VOTE", "vote"),
    Member("ASSESS", "assess"),
    Member("RELEASE", "release"),
    Member("START", "start"),
    Member("PAUSE", "pause"),
    Member("RESUME", "resume"),
    Member("RE_EVALUATE", "re_evaluate"),
    Member("PROMOTE", "promote"),
    Member("DEMOTE", "demote")])

  const HitOperationTypeTable := EnumTable([
    Member("APPENDED", "appended"),
    Member("REMOVED", "removed"),
    Member("SET", "set")])

  const Alert := "alert"
  const Evidence := "evidence"
  const Hit := "hit"
  const Miss := "miss"

  const EscalationTable := EnumTable([
    Member("ALERT", Alert),
    Member("EVIDENCE", Evidence),
    Member("HIT", Hit),
    Member("MISS", Miss)])

  /** The third member is spelled `BEINIGN` in the class body; its value is `benign`. */
  const VoteTable := EnumTable([
    Member("MALICIOUS", "malicious"),
    Member("OBSCURE", "obscure"),
    Member("BEINIGN", "benign")])

  /** `Assessment`, whose class body asks to keep this order. */
  const AssessmentTable := EnumTable([
    Member("AMBIGUOUS", "ambiguous"),
    Member("SECURITY", "security"),
    Member("DEVELOPMENT", "development"),
    Member("FALSE_POSITIVE", "false-positive"),
    Member("LEGITIMATE", "legitimate"),
    Member("TRIVIAL", "trivial"),
    Member("RECON", "recon"),
    Member("ATTEMPT", "attempt"),
    Member("COMPROMISE", "compromise"),
    Member("MITIGATED", "mitigated")])

  /**
    `AssessmentEscalationMap`, in its own declaration order. Its values repeat,
    so every member after `AMBIGUOUS` whose value is `miss` is an alias of
    `AMBIGUOUS`, and every member after `ATTEMPT` whose value is `evidence` an
    alias of `ATTEMPT`.
  */
  const AssessmentEscalationTable := EnumTable([
    Member("AMBIGUOUS", Miss),
    Member("ATTEMPT", Evidence),
    Member("COMPROMISE", Evidence),
    Member("DEVELOPMENT", Miss),
    Member("FALSE_POSITIVE", Miss),
    Member("LEGITIMATE", Miss),
    Member("MITIGATED", Evidence),
    Member("RECON", Evidence),
    Member("SECURITY", Miss),
    Member("TRIVIAL", Evidence)])

  /**
    The tables in which every value normalises to its own member's name
    and no value repeats.
  */
  predicate Coherent(e: EnumTable)
  {
    && NoAliases(e.declared)
    && forall i :: 0 <= i < |e.declared| ==> Normalize(e.declared[i].value) == e.declared[i].name
  }

  lemma ScrutinyCoherent()
    ensures Coherent(ScrutinyTable)
  {
    ScrutinyNormal();
    assert NoAliases(ScrutinyTable.declared);
  }

  lemma ScrutinyNormal()
    ensures forall i :: 0 <= i < |ScrutinyTable.declared| ==> Normalize(ScrutinyTable.declared[i].value) == ScrutinyTable.declared[i].name
  {
    ScrutinyNormalFrom0();
    ScrutinyNormalFrom3();
  }

  /** `unseen`, `surveyed`, `scanned`. */
  lemma ScrutinyNormalFrom0()
    ensures forall i :: 0 <= i < 3 ==> Normalize(ScrutinyTable.declared[i].value) == ScrutinyTable.declared[i].name
  {
    var d := ScrutinyTable.declared;
    assert Normalize(d[0].value) == d[0].name;
    assert Normalize(d[1].value) == d[1].name;
    assert Normalize(d[2].value) == d[2].name;
  }

  /** `inspected`, `investigated`. */
  lemma ScrutinyNormalFrom3()
    ensures forall i :: 3 <= i < 5 ==> Normalize(ScrutinyTable.declared[i].value) == ScrutinyTable.declared[i].name
  {
    var d := ScrutinyTable.declared;
    assert Normalize(d[3].value) == d[3].name;
    assert Normalize(d[4].value) == d[4].name;
  }

  lemma HitStatusCoherent()
    ensures Coherent(HitStatusTable)
  {
    HitStatusNormal();
    assert NoAliases(HitStatusTable.declared);
  }

  lemma HitStatusNormal()
    ensures forall i :: 0 <= i < |HitStatusTable.declared| ==> Normalize(HitStatusTable.declared[i].value) == HitStatusTable.declared[i].name
  {
    var d := HitStatusTable.declared;
    assert Normalize(d[0].value) == d[0].name;
    assert Normalize(d[1].value) == d[1].name;
    assert Normalize(d[2].value) == d[2].name;
    assert Normalize(d[3].value) == d[3].name;
  }

  lemma HitStatusTransitionCoherent()
    ensures Coherent(HitStatusTransitionTable)
  {
    HitStatusTransitionNormal();
    assert NoAliases(HitStatusTransitionTable.declared);
  }

  lemma HitStatusTransitionNormal()
    ensures forall i :: 0 <= i < |HitStatusTransitionTable.declared| ==> Normalize(HitStatusTransitionTable.declared[i].value) == HitStatusTransitionTable.declared[i].name
  {
    HitStatusTransitionNormalFrom0();
    HitStatusTransitionNormalFrom2();
    HitStatusTransitionNormalFrom5();
    HitStatusTransitionNormalFrom8();
  }

  /** `assign_to_me`, `assign_to_other`. */
  lemma HitStatusTransitionNormalFrom0()
    ensures forall i :: 0 <= i < 2 ==> Normalize(HitStatusTransitionTable.declared[i].value) == HitStatusTransitionTable.declared[i].name
  {
    var d := HitStatusTransitionTable.declared;
    assert Normalize(d[0].value) == d[0].name;
    assert Normalize(d[1].value) == d[1].name;
  }

  /** `vote`, `assess`, `release`. */
  lemma HitStatusTransitionNormalFrom2()
    ensures forall i :: 2 <= i < 5 ==> Normalize(HitStatusTransitionTable.declared[i].value) == HitStatusTransitionTable.declared[i].name
  {
    var d := HitStatusTransitionTable.declared;
    assert Normalize(d[2].value) == d[2].name;
    assert Normalize(d[3].value) == d[3].name;
    assert Normalize(d[4].value) == d[4].name;
  }

  /** `start`, `pause`, `resume`. */
  lemma HitStatusTransitionNormalFrom5()
    ensures forall i :: 5 <= i < 8 ==> Normalize(HitStatusTransitionTable.declared[i].value) == HitStatusTransitionTable.declared[i].name
  {
    var d := HitStatusTransitionTable.declared;
    assert Normalize(d[5].value) == d[5].name;
    assert Normalize(d[6].value) == d[6].name;
    assert Normalize(d[7].value) == d[7].name;
  }

  /** `re_evaluate`, `promote`, `demote`. */
  lemma HitStatusTransitionNormalFrom8()
    ensures forall i :: 8 <= i < 11 ==> Normalize(HitStatusTransitionTable.declared[i].value) == HitStatusTransitionTable.declared[i].name
  {
    var d := HitStatusTransitionTable.declared;
    assert Normalize(d[8].value) == d[8].name;
    assert Normalize(d[9].value) == d[9].name;
    assert Normalize(d[10].value) == d[10].name;
  }

  lemma HitOperationTypeCoherent()
    ensures Coherent(HitOperationTypeTable)
  {
    HitOperationTypeNormal();
    assert NoAliases(HitOperationTypeTable.declared);
  }

  lemma HitOperationTypeNormal()
    ensures forall i :: 0 <= i < |HitOperationTypeTable.declared| ==> Normalize(HitOperationTypeTable.declared[i].value) == HitOperationTypeTable.declared[i].name
  {
    var d := HitOperationTypeTable.declared;
    assert Normalize(d[0].value) == d[0].name;
    assert Normalize(d[1].value) == d[1].name;
    assert Normalize(d[2].value) == d[2].name;
  }

  lemma EscalationCoherent()
    ensures Coherent(EscalationTable)
  {
    EscalationNormal();
    assert NoAliases(EscalationTable.declared);
  }

  lemma EscalationNormal()
    ensures forall i :: 0 <= i < |EscalationTable.declared| ==> Normalize(EscalationTable.declared[i].value) == EscalationTable.declared[i].name
  {
    var d := EscalationTable.declared;
    assert Normalize(d[0].value) == d[0].name;
    assert Normalize(d[1].value) == d[1].name;
    assert Normalize(d[2].value) == d[2].name;
    assert Normalize(d[3].value) == d[3].name;
  }

  lemma AssessmentCoherent()
    ensures Coherent(AssessmentTable)
  {
    AssessmentNormal();
    assert NoAliases(AssessmentTable.declared);
  }

  lemma AssessmentNormal()
    ensures forall i :: 0 <= i < |AssessmentTable.declared| ==> Normalize(AssessmentTable.declared[i].value) == AssessmentTable.declared[i].name
  {
    AssessmentNormalFrom0();
    AssessmentNormalFrom3();
    AssessmentNormalFrom5();
    AssessmentNormalFrom8();
  }

  /** `ambiguous`, `security`, `development`. */
  lemma AssessmentNormalFrom0()
    ensures forall i :: 0 <= i < 3 ==> Normalize(AssessmentTable.declared[i].value) == AssessmentTable.declared[i].name
  {
    var d := AssessmentTable.declared;
    assert Normalize(d[0].value) == d[0].name;
    assert Normalize(d[1].value) == d[1].name;
    assert Normalize(d[2].value) == d[2].name;
  }

  /** `false-positive`, `legitimate`. */
  lemma AssessmentNormalFrom3()
    ensures forall i :: 3 <= i < 5 ==> Normalize(AssessmentTable.declared[i].value) == AssessmentTable.declared[i].name
  {
    var d := AssessmentTable.declared;
    assert Normalize(d[3].value) == d[3].name;
    assert Normalize(d[4].value) == d[4].name;
  }

  /** `trivial`, `recon`, `attempt`. */
  lemma AssessmentNormalFrom5()
    ensures forall i :: 5 <= i < 8 ==> Normalize(AssessmentTable.declared[i].value) == AssessmentTable.declared[i].name
  {
    var d := AssessmentTable.declared;
    assert Normalize(d[5].value) == d[5].name;
    assert Normalize(d[6].value) == d[6].name;
    assert Normalize(d[7].value) == d[7].name;
  }

  /** `compromise`, `mitigated`. */
  lemma AssessmentNormalFrom8()
    ensures forall i :: 8 <= i < 10 ==> Normalize(AssessmentTable.declared[i].value) == AssessmentTable.declared[i].name
  {
    var d := AssessmentTable.declared;
    assert Normalize(d[8].value) == d[8].name;
    assert Normalize(d[9].value) == d[9].name;
  }

  // ---------------------------------------------------------------------------
  // AssessmentEscalationMap

  /** Iteration over `AssessmentEscalationMap` sees only `AMBIGUOUS` and `ATTEMPT`; the other eight are aliases. */
  lemma AssessmentEscalationCanonical()
    ensures Canonical(AssessmentEscalationTable.declared) == [Member("AMBIGUOUS", Miss), Member("ATTEMPT", Evidence)]
    ensures ListValues(AssessmentEscalationTable) == [Miss, Evidence]
  {
    var d := AssessmentEscalationTable.declared;
    assert d[..1] == [] + [d[0]];
    CanonicalSnoc([], d[0]);
    assert d[..2] == d[..1] + [d[1]];
    CanonicalSnoc(d[..1], d[1]);
    assert Values(d[..2]) == [Miss, Evidence];
    CanonicalOfPrefix(d, 2);
  }

  /** Both tables declare the same ten names, each once. */
  lemma AssessmentEscalationNames()
    ensures UniqueNames(AssessmentEscalationTable.declared) && UniqueNames(AssessmentTable.declared)
    ensures forall n :: n in Names(AssessmentEscalationTable.declared) <==> n in Names(AssessmentTable.declared)
  {
    AssessmentNamesUnique();
    AssessmentEscalationNamesUnique();
    EscalationNamesAreAssessments();
    AssessmentsAreEscalationNames();
  }

  /** Every name of `AssessmentEscalationMap` names an `Assessment` member. */
  lemma EscalationNamesAreAssessments()
    ensures forall n :: n in Names(AssessmentEscalationTable.declared) ==> n in Names(AssessmentTable.declared)
  {
    var aem, asm := AssessmentEscalationTable.declared, AssessmentTable.declared;
    forall n | n in Names(aem)
      ensures n in Names(asm)
    {
      var i :| 0 <= i < |aem| && Names(aem)[i] == n;
      if i == 0 { assert n == Names(asm)[0]; }
      else if i == 1 { assert n == Names(asm)[7]; }
      else if i == 2 { assert n == Names(asm)[8]; }
      else if i == 3 { assert n == Names(asm)[2]; }
      else if i == 4 { assert n == Names(asm)[3]; }
      else if i == 5 { assert n == Names(asm)[4]; }
      else if i == 6 { assert n == Names(asm)[9]; }
      else if i == 7 { assert n == Names(asm)[6]; }
      else if i == 8 { assert n == Names(asm)[1]; }
      else { assert n == Names(asm)[5]; }
    }
  }

  /** Every `Assessment` name is declared in `AssessmentEscalationMap`. */
  lemma AssessmentsAreEscalationNames()
    ensures forall n :: n in Names(AssessmentTable.declared) ==> n in Names(AssessmentEscalationTable.declared)
  {
    var aem, asm := AssessmentEscalationTable.declared, AssessmentTable.declared;
    forall n | n in Names(asm)
      ensures n in Names(aem)
    {
      var i :| 0 <= i < |asm| && Names(asm)[i] == n;
      if i == 0 { assert n == Names(aem)[0]; }
      else if i == 7 { assert n == Names(aem)[1]; }
      else if i == 8 { assert n == Names(aem)[2]; }
      else if i == 2 { assert n == Names(aem)[3]; }
      else if i == 3 { assert n == Names(aem)[4]; }
      else if i == 4 { assert n == Names(aem)[5]; }
      else if i == 9 { assert n == Names(aem)[6]; }
      else if i == 6 { assert n == Names(aem)[7]; }
      else if i == 1 { assert n == Names(aem)[8]; }
      else { assert n == Names(aem)[9]; }
    }
  }

  /** No two `AssessmentEscalationMap` members share a name. */
  lemma AssessmentEscalationNamesUnique()
    ensures UniqueNames(AssessmentEscalationTable.declared)
  {
  }

  /** No two `Assessment` members share a name. */
  lemma AssessmentNamesUnique()
    ensures UniqueNames(AssessmentTable.declared)
  {
  }

  /** The values `AssessmentEscalationMap` iterates over are `Escalation` values, `miss` and `evidence` only. */
  lemma AssessmentEscalationValues()
    ensures forall c :: c in Canonical(AssessmentEscalationTable.declared) ==>
      c.value in ListValues(EscalationTable) && (c.value == Miss || c.value == Evidence)
  {
    AssessmentEscalationCanonical();
    EscalationCoherent();
    CanonicalWithoutAliases(EscalationTable.declared);
    assert ListValues(EscalationTable)[1] == Evidence && ListValues(EscalationTable)[3] == Miss;
  }

  /** A token names a member of `AssessmentEscalationMap` exactly when it names an `Assessment` member. */
  lemma AssessmentLookupsAgree(token: string)
    ensures Lookup(AssessmentEscalationTable, token).Ok? <==> Lookup(AssessmentTable, token).Ok?
  {
    LookupSpec(AssessmentTable, token);
    LookupSpec(AssessmentEscalationTable, token);
    AssessmentEscalationNames();
  }

  /**
    The escalation an assessment token stands for: the value of the member of
    `AssessmentEscalationMap` that the token names.
  */
  function EscalationFor(token: string): (r: Result<string, EnumError>)
    ensures r.Ok? <==> Lookup(AssessmentTable, token).Ok?
    ensures r.Ok? ==> r.value in ListValues(EscalationTable) && (r.value == Miss || r.value == Evidence)
  {
    AssessmentLookupsAgree(token);
    LookupSpec(AssessmentEscalationTable, token);
    AssessmentEscalationValues();
    match Lookup(AssessmentEscalationTable, token)
    case Ok(m) => Ok(m.value)
    case Err(e) => Err(e)
  }

  /**
    The mapping is total over `Assessment`: every token the `Assessment`
    enumeration accepts, by name or by value, has an escalation, which is
    never `alert` nor `hit`.
  */
  lemma EveryAssessmentEscalates(token: string)
    requires Contains(AssessmentTable, token)
    ensures EscalationFor(token).Ok?
    ensures EscalationFor(token).value != Alert && EscalationFor(token).value != Hit
  {
    AssessmentCoherent();
    ContainsIffLookup(AssessmentTable, token);
  }

  /**
    The mapping value for value: any spelling of the five non-threat
    assessments escalates to `miss`, any spelling of the five threat
    assessments to `evidence`.
  */
  lemma AssessmentEscalations()
    ensures forall i, token :: 0 <= i < 5 && Normalize(token) == AssessmentTable.declared[i].name ==>
      EscalationFor(token) == Ok(Miss)
    ensures forall i, token :: 5 <= i < 10 && Normalize(token) == AssessmentTable.declared[i].name ==>
      EscalationFor(token) == Ok(Evidence)
  {
    var aem, asm := AssessmentEscalationTable.declared, AssessmentTable.declared;
    var at := [0, 8, 3, 4, 5, 9, 7, 1, 2, 6];
    AssessmentEscalationNames();
    forall i, token | 0 <= i < 10 && Normalize(token) == asm[i].name
      ensures EscalationFor(token) == Ok(if i < 5 then Miss else Evidence)
    {
      assert aem[at[i]].name == asm[i].name;
      LookupAt(AssessmentEscalationTable, at[i], token);
    }
  }

  /** Membership in `AssessmentEscalationMap` sees only its two canonical members. */
  lemma AssessmentEscalationMembership(token: string)
    ensures Contains(AssessmentEscalationTable, token) <==>
      Normalize(token) == "AMBIGUOUS" || Normalize(token) == "ATTEMPT" || token == Miss || token == Evidence
  {
    AssessmentEscalationCanonical();
    ContainsCanonical(AssessmentEscalationTable, token);
  }

  /** `COMPROMISE` is an alias: it is not `in` the mapping, yet name lookup resolves it, to `ATTEMPT`. */
  lemma CompromiseIsAnAlias()
    ensures !Contains(AssessmentEscalationTable, "compromise")
    ensures Lookup(AssessmentEscalationTable, "compromise") == Ok(Member("ATTEMPT", Evidence))
  {
    AssessmentEscalationMembership("compromise");
    AssessmentEscalationNames();
    LookupAt(AssessmentEscalationTable, 2, "compromise");
    AssessmentEscalationCanonical();
  }

  // ---------------------------------------------------------------------------
  // Membership and lookup on the concrete tables

  /** In the six tables without aliases or misspelt names, membership and name lookup agree on every token. */
  lemma MembershipIsLookup(token: string)
    ensures Contains(ScrutinyTable, token) <==> Lookup(ScrutinyTable, token).Ok?
    ensures Contains(HitStatusTable, token) <==> Lookup(HitStatusTable, token).Ok?
    ensures Contains(HitStatusTransitionTable, token) <==> Lookup(HitStatusTransitionTable, token).Ok?
    ensures Contains(HitOperationTypeTable, token) <==> Lookup(HitOperationTypeTable, token).Ok?
    ensures Contains(EscalationTable, token) <==> Lookup(EscalationTable, token).Ok?
    ensures Contains(AssessmentTable, token) <==> Lookup(AssessmentTable, token).Ok?
  {
    ScrutinyCoherent();
    ContainsIffLookup(ScrutinyTable, token);
    HitStatusCoherent();
    ContainsIffLookup(HitStatusTable, token);
    HitStatusTransitionCoherent();
    ContainsIffLookup(HitStatusTransitionTable, token);
    HitOperationTypeCoherent();
    ContainsIffLookup(HitOperationTypeTable, token);
    EscalationCoherent();
    ContainsIffLookup(EscalationTable, token);
    AssessmentCoherent();
    ContainsIffLookup(AssessmentTable, token);
  }

  /** `IN_PROGRESS` is a canonical name of `HitStatus`, `in-progress` a listed value. */
  lemma InProgressListed()
    ensures "IN_PROGRESS" in Names(Canonical(HitStatusTable.declared))
    ensures "in-progress" in ListValues(HitStatusTable)
  {
    var d := HitStatusTable.declared;
    assert NoAliases(d);
    CanonicalWithoutAliases(d);
    assert Names(d)[1] == "IN_PROGRESS";
    assert Values(d)[1] == "in-progress";
  }

  /** `in-progress`, `In-Progress` and `IN_PROGRESS` are all `in` `HitStatus`. */
  lemma HitStatusSpellings()
    ensures Contains(HitStatusTable, "in-progress")
    ensures Contains(HitStatusTable, "In-Progress")
    ensures Contains(HitStatusTable, "IN_PROGRESS")
  {
    InProgressListed();
    assert Normalize("In-Progress") == "IN_PROGRESS";
    assert Normalize("IN_PROGRESS") == "IN_PROGRESS";
  }

  /** `HitStatus["In-Progress"]` is `HitStatus.IN_PROGRESS`. */
  lemma HitStatusLookup()
    ensures Lookup(HitStatusTable, "In-Progress") == Ok(Member("IN_PROGRESS", "in-progress"))
  {
    var d := HitStatusTable.declared;
    assert NoAliases(d);
    CanonicalWithoutAliases(d);
    assert Normalize("In-Progress") == "IN_PROGRESS";
    LookupAt(HitStatusTable, 1, "In-Progress");
  }

  /** Spaces are not normalised: `in progress` is neither `in` `HitStatus` nor found by name. */
  lemma HitStatusKeepsSpaces()
    ensures !Contains(HitStatusTable, "in progress")
    ensures Lookup(HitStatusTable, "in progress").Err?
  {
    assert Normalize("in progress") == "IN PROGRESS";
    assert "IN PROGRESS" !in Names(HitStatusTable.declared);
    LookupSpec(HitStatusTable, "in progress");
    MembershipIsLookup("in progress");
  }

  /** `benign` is a `Vote` by value, but `Vote["benign"]` fails because the member is spelled `BEINIGN`. */
  lemma VoteBenignByValueOnly()
    ensures Contains(VoteTable, "benign")
    ensures Lookup(VoteTable, "benign").Err?
  {
    var d := VoteTable.declared;
    assert NoAliases(d);
    CanonicalWithoutAliases(d);
    assert ListValues(VoteTable)[2] == "benign";
    assert Normalize("benign") == "BENIGN";
    NamesHas(d, "BENIGN");
    LookupSpec(VoteTable, "benign");
  }

  /** The misspelt name is what lookup accepts. */
  lemma VoteMisspeltName()
    ensures Lookup(VoteTable, "beinign") == Ok(Member("BEINIGN", "benign"))
  {
    var d := VoteTable.declared;
    assert NoAliases(d);
    CanonicalWithoutAliases(d);
    assert Normalize("beinign") == "BEINIGN";
    LookupAt(VoteTable, 2, "beinign");
  }

  /** Values are not case-folded: `Benign` is no `Vote` at all. */
  lemma VoteValueIsCaseSensitive()
    ensures !Contains(VoteTable, "Benign")
  {
    var d := VoteTable.declared;
    assert NoAliases(d);
    CanonicalWithoutAliases(d);
    assert Normalize("Benign") == "BENIGN";
    assert "BENIGN" !in Names(d);
    assert "Benign" !in Values(d);
  }

  /** `Assessment.list()` keeps the declaration order. */
  lemma AssessmentOrder()
    ensures ListValues(AssessmentTable) == ["ambiguous", "security", "development", "false-positive", "legitimate",
                                      "trivial", "recon", "attempt", "compromise", "mitigated"]
  {
    AssessmentCoherent();
    CanonicalWithoutAliases(AssessmentTable.declared);
  }

  /** `Vote.list()` in declaration order. */
  lemma VoteOrder()
    ensures ListValues(VoteTable) == ["malicious", "obscure", "benign"]
  {
    assert NoAliases(VoteTable.declared);
    CanonicalWithoutAliases(VoteTable.declared);
  }
}
