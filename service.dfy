/** The Python sample extension's processing service: every resource of a note is matched
    (case-insensitively) against three keyword groups, a fixed clinical entity is built for
    each group that matches, and the entity list is returned together with an adaptive card
    listing the entities and a composite plugin result of two summary cards. The uuids the
    service draws, the clock readings it takes and its keyword table are held by a
    `ProcessingService` object. */
module SampleExtension {
  import opened Text
  import opened Json

  // ---------------------------------------------------------------- keyword matching

  /** The shape of `KEYWORD_SETS`: the keywords of each group. */
  datatype KeywordSets = KeywordSets(bloodPressure: seq<string>, diabetes: seq<string>, medication: seq<string>)

  /** `KEYWORD_SETS`. */
  const Keywords := KeywordSets(["BLOOD PRESSURE", "BP"], ["DIABETES", "DIABETIC"],
                                ["MEDICATION", "PRESCRIBED", "TAKING", "METFORMIN"])

  /** `any(k in upper for k in keywords)`. */
  predicate AnyKeyword(upper: string, keywords: seq<string>)
    decreases |keywords|
  {
    keywords != [] && (Contains(upper, keywords[0]) || AnyKeyword(upper, keywords[1..]))
  }

  /** The generator expression is true exactly when some keyword occurs in the text. */
  lemma {:induction false} AnyKeywordIff(upper: string, keywords: seq<string>)
    ensures AnyKeyword(upper, keywords) <==> exists i :: 0 <= i < |keywords| && Contains(upper, keywords[i])
    decreases |keywords|
  {
    if keywords != [] {
      AnyKeywordIff(upper, keywords[1..]);
      if exists i :: 0 <= i < |keywords| && Contains(upper, keywords[i]) {
        var i :| 0 <= i < |keywords| && Contains(upper, keywords[i]);
        if i > 0 {
          assert keywords[1..][i - 1] == keywords[i];
        }
      }
      if AnyKeyword(upper, keywords[1..]) {
        var j :| 0 <= j < |keywords[1..]| && Contains(upper, keywords[1..][j]);
        assert keywords[j + 1] == keywords[1..][j];
      }
    }
  }

  /** With the service's table: a text matches the blood-pressure group exactly when it
      holds "BLOOD PRESSURE" or "BP", and the diabetes group exactly when it holds
      "DIABETES" or "DIABETIC". */
  lemma KeywordGroups(upper: string, table: KeywordSets)
    requires table == Keywords
    ensures AnyKeyword(upper, table.bloodPressure) <==> Contains(upper, "BLOOD PRESSURE") || Contains(upper, "BP")
    ensures AnyKeyword(upper, table.diabetes) <==> Contains(upper, "DIABETES") || Contains(upper, "DIABETIC")
  {
    AnyKeywordIff(upper, table.bloodPressure);
    AnyKeywordIff(upper, table.diabetes);
  }

  /** ... and the medication group exactly when it holds one of "MEDICATION", "PRESCRIBED",
      "TAKING" and "METFORMIN". */
  lemma MedicationGroup(upper: string, table: KeywordSets)
    requires table == Keywords
    ensures AnyKeyword(upper, table.medication) <==>
              Contains(upper, "MEDICATION") || Contains(upper, "PRESCRIBED") || Contains(upper, "TAKING") || Contains(upper, "METFORMIN")
  {
    AnyKeywordIff(upper, table.medication);
  }

  /** The entity groups, in the order the service tests them. */
  datatype Kind = Vital | Code | Concept

  function Rank(k: Kind): nat {
    match k
    case Vital => 0
    case Code => 1
    case Concept => 2
  }

  /** `NoteResource`. */
  datatype NoteResource = NoteResource(content: Option<string>)

  /** `Note`: a document that may be missing, and a resource list that may be missing. */
  datatype Note = Note(document: Option<map<string, Json>>, resources: Option<seq<NoteResource>>)

  /** `DragonStandardPayload`; the session data is not read by the service. */
  datatype StandardPayload = StandardPayload(note: Option<Note>)

  /** `if not content`: no content, or the empty string. */
  predicate IsEmptyContent(content: Option<string>) {
    content.None? || content.value == ""
  }

  /** The groups whose test succeeded, in test order. */
  function Groups(vital: bool, code: bool, concept: bool): seq<Kind> {
    (if vital then [Vital] else []) + (if code then [Code] else []) + (if concept then [Concept] else [])
  }

  /** The keywords of a group. */
  function KeywordsOf(table: KeywordSets, k: Kind): seq<string> {
    match k
    case Vital => table.bloodPressure
    case Code => table.diabetes
    case Concept => table.medication
  }

  /** A resource's content passes a group's test: it is not empty and, upper-cased, holds
      one of the keywords. */
  predicate Matches(content: Option<string>, keywords: seq<string>) {
    !IsEmptyContent(content) && AnyKeyword(Upper(content.value), keywords)
  }

  /** The groups one resource matches, in test order; nothing for empty content. */
  function KindsFor(content: Option<string>, table: KeywordSets): (ks: seq<Kind>)
    ensures |ks| <= 3
    ensures IsEmptyContent(content) ==> ks == []
  {
    Groups(Matches(content, table.bloodPressure), Matches(content, table.diabetes), Matches(content, table.medication))
  }

  /** A resource with content yields a group exactly when one of the group's keywords
      occurs in its upper-cased text, each group at most once and in test order; a resource
      without content yields nothing. */
  lemma KindsForIff(content: Option<string>, table: KeywordSets)
    ensures var ks := KindsFor(content, table);
            && (Vital in ks <==> !IsEmptyContent(content) && exists i :: 0 <= i < |table.bloodPressure| && Contains(Upper(content.value), table.bloodPressure[i]))
            && (Code in ks <==> !IsEmptyContent(content) && exists i :: 0 <= i < |table.diabetes| && Contains(Upper(content.value), table.diabetes[i]))
            && (Concept in ks <==> !IsEmptyContent(content) && exists i :: 0 <= i < |table.medication| && Contains(Upper(content.value), table.medication[i]))
            && (forall i, j :: 0 <= i < j < |ks| ==> Rank(ks[i]) < Rank(ks[j]))
  {
    if !IsEmptyContent(content) {
      var upper := Upper(content.value);
      AnyKeywordIff(upper, table.bloodPressure);
      AnyKeywordIff(upper, table.diabetes);
      AnyKeywordIff(upper, table.medication);
    }
  }

  /** Upper-casing twice changes nothing. */
  lemma UpperIdempotent(s: string)
    ensures Upper(Upper(s)) == Upper(s)
  {
  }

  /** Matching does not depend on the case of the content: upper-casing it first gives the
      same groups. */
  lemma KindsIgnoreCase(s: string, table: KeywordSets)
    ensures KindsFor(Some(Upper(s)), table) == KindsFor(Some(s), table)
  {
    UpperIdempotent(s);
  }

  function ResourcesOf(note: Note): seq<NoteResource> {
    if note.resources.Some? then note.resources.value else []
  }

  /** The groups of every resource, resource by resource. */
  function Kinds(rs: seq<NoteResource>, table: KeywordSets): seq<Kind>
    decreases |rs|
  {
    if rs == [] then [] else Kinds(rs[..|rs| - 1], table) + KindsFor(rs[|rs| - 1].content, table)
  }

  lemma KindsAppendOne(rs: seq<NoteResource>, x: NoteResource, table: KeywordSets)
    ensures Kinds(rs + [x], table) == Kinds(rs, table) + KindsFor(x.content, table)
  {
    assert (rs + [x])[..|rs|] == rs;
  }

  /** At most three entities per resource. */
  lemma {:induction false} KindsBound(rs: seq<NoteResource>, table: KeywordSets)
    ensures |Kinds(rs, table)| <= 3 * |rs|
    decreases |rs|
  {
    if rs != [] {
      KindsBound(rs[..|rs| - 1], table);
    }
  }

  /** Taking the last element off the second of two sequences. */
  lemma SplitLast<T>(a: seq<T>, b: seq<T>)
    requires b != []
    ensures b == b[..|b| - 1] + [b[|b| - 1]]
    ensures a + b == (a + b[..|b| - 1]) + [b[|b| - 1]]
  {
  }

  /** The groups of two resource lists one after the other are the groups of each. */
  lemma {:induction false} KindsAppend(a: seq<NoteResource>, b: seq<NoteResource>, table: KeywordSets)
    ensures Kinds(a + b, table) == Kinds(a, table) + Kinds(b, table)
    decreases |b|
  {
    if b == [] {
      assert a + b == a;
    } else {
      var init := b[..|b| - 1];
      var last := b[|b| - 1];
      var front := a + init;
      KindsAppend(a, init, table);
      SplitLast(a, b);
      KindsAppendOne(front, last, table);
      KindsAppendOne(init, last, table);
      calc {
        Kinds(a + b, table);
        Kinds(front, table) + KindsFor(last.content, table);
        Kinds(a, table) + Kinds(init, table) + KindsFor(last.content, table);
        Kinds(a, table) + Kinds(b, table);
      }
    }
  }

  /** A resource without content adds nothing, wherever it stands. */
  lemma EmptyResourceAddsNothing(before: seq<NoteResource>, r: NoteResource, after: seq<NoteResource>, table: KeywordSets)
    requires IsEmptyContent(r.content)
    ensures Kinds(before + [r] + after, table) == Kinds(before + after, table)
  {
    KindsAppend(before + [r], after, table);
    KindsAppend(before, after, table);
    KindsAppendOne(before, r, table);
  }

  /** How often a group occurs. */
  function KindCount(ks: seq<Kind>, k: Kind): (n: nat)
    ensures n <= |ks|
    decreases |ks|
  {
    if ks == [] then 0 else KindCount(ks[..|ks| - 1], k) + (if ks[|ks| - 1] == k then 1 else 0)
  }

  lemma {:induction false} KindCountAppend(a: seq<Kind>, b: seq<Kind>, k: Kind)
    ensures KindCount(a + b, k) == KindCount(a, k) + KindCount(b, k)
    decreases |b|
  {
    if b == [] {
      assert a + b == a;
    } else {
      KindCountAppend(a, b[..|b| - 1], k);
      assert (a + b)[..|a + b| - 1] == a + b[..|b| - 1];
      assert (a + b)[|a + b| - 1] == b[|b| - 1];
    }
  }

  /** The number of resources whose content matches a keyword group. */
  function MatchingResources(rs: seq<NoteResource>, keywords: seq<string>): (n: nat)
    ensures n <= |rs|
    decreases |rs|
  {
    if rs == [] then 0
    else MatchingResources(rs[..|rs| - 1], keywords) + (if Matches(rs[|rs| - 1].content, keywords) then 1 else 0)
  }

  /** Whether a group's test succeeded, among the three results. */
  function Selected(vital: bool, code: bool, concept: bool, k: Kind): bool {
    match k
    case Vital => vital
    case Code => code
    case Concept => concept
  }

  /** Each group occurs once if its test succeeded and not at all otherwise. */
  lemma GroupsCount(vital: bool, code: bool, concept: bool, k: Kind)
    ensures KindCount(Groups(vital, code, concept), k) == if Selected(vital, code, concept, k) then 1 else 0
  {
    var a: seq<Kind> := if vital then [Vital] else [];
    var b: seq<Kind> := if code then [Code] else [];
    var c: seq<Kind> := if concept then [Concept] else [];
    KindCountAppend(a + b, c, k);
    KindCountAppend(a, b, k);
    KindCountSingle(Vital, k);
    KindCountSingle(Code, k);
    KindCountSingle(Concept, k);
  }

  lemma KindCountSingle(x: Kind, k: Kind)
    ensures KindCount([x], k) == if x == k then 1 else 0
  {
    assert [x][..0] == [];
  }

  /** Each group occurs once per resource that matches it: the vital signs count the
      resources that mention blood pressure, and so on. */
  lemma {:induction false} KindCountIsMatchingResources(rs: seq<NoteResource>, table: KeywordSets, k: Kind)
    ensures KindCount(Kinds(rs, table), k) == MatchingResources(rs, KeywordsOf(table, k))
    decreases |rs|
  {
    if rs != [] {
      var init := rs[..|rs| - 1];
      var c := rs[|rs| - 1].content;
      KindCountIsMatchingResources(init, table, k);
      GroupsCount(Matches(c, table.bloodPressure), Matches(c, table.diabetes), Matches(c, table.medication), k);
      KindCountAppend(Kinds(init, table), KindsFor(c, table), k);
    }
  }

  // ---------------------------------------------------------------- entities

  /** `str(uuid4())`, modelled by the ordinal of the draw. */
  datatype Uuid = Uuid(ordinal: nat)

  /** The text a uuid is written as; distinct uuids are written differently. */
  function UuidText(u: Uuid): (t: string)
    ensures |t| >= 1
  {
    NatToString(u.ordinal)
  }

  lemma UuidTextInjective(u: Uuid, v: Uuid)
    requires UuidText(u) == UuidText(v)
    ensures u == v
  {
    NatToStringInjective(u.ordinal, v.ordinal);
  }

  datatype Priority = High | Medium | Low

  /** The `code` dictionary of a medical code. */
  datatype CodeValue = CodeValue(identifier: string, description: string, system: string, systemUrl: string)

  /** `ObservationValue`. */
  datatype ObservationValue = ObservationValue(text: string, conceptId: string)

  /** The three entity models, with the fields they declare (the `context` the builders
      pass is not one of them; see README). */
  datatype Entity =
    | MedicalCode(id: Uuid, code: CodeValue, priority: Priority, reason: string)
    | ObservationNumber(id: Uuid, value: real, valueUnit: string, priority: Priority)
    | ObservationConcept(id: Uuid, concept: ObservationValue, priority: Priority)

  /** The frozen `type` field of each model, and the name it holds. */
  datatype EntityType = MedicalCodeType | ObservationNumberType | ObservationConceptType

  function TypeOf(e: Entity): EntityType {
    match e
    case MedicalCode(_, _, _, _) => MedicalCodeType
    case ObservationNumber(_, _, _, _) => ObservationNumberType
    case ObservationConcept(_, _, _) => ObservationConceptType
  }

  function TypeName(t: EntityType): string {
    match t
    case MedicalCodeType => "MedicalCode"
    case ObservationNumberType => "ObservationNumber"
    case ObservationConceptType => "ObservationConcept"
  }

  /** The names differ, so comparing `type` strings is comparing models. */
  lemma TypeNameInjective(s: EntityType, t: EntityType)
    ensures TypeName(s) == TypeName(t) <==> s == t
  {
    if s != t {
      assert |TypeName(s)| != |TypeName(t)|;
    }
  }

  const DiabetesDescription := "Type 2 diabetes mellitus without complications"
  const IcdSystemUrl := "http://hl7.org/fhir/sid/icd-10-cm"
  const CodeReason := "Detected from clinical documentation"
  const MedicationText := "Prescription medication detected"
  const MedicationConceptId := "medication-concept-001"

  /** `_medical_code`. */
  function MedicalCodeEntity(id: Uuid, codeValue: string, description: string): Entity {
    MedicalCode(id, CodeValue(codeValue, description, "ICD-10-CM", IcdSystemUrl), Priority.Medium, CodeReason)
  }

  /** `_vital_sign`. */
  function VitalSignEntity(id: Uuid, value: real, unit: string): Entity {
    ObservationNumber(id, value, unit, High)
  }

  /** `_observation_concept`. */
  function ObservationConceptEntity(id: Uuid, text: string, conceptId: string): Entity {
    ObservationConcept(id, ObservationValue(text, conceptId), Priority.Medium)
  }

  /** The entity the service builds for a group, with its arguments: it carries the uuid
      it is given and is an instance of the group's model. */
  function Build(k: Kind, id: Uuid): (e: Entity)
    ensures e.id == id && TypeOf(e) == KindType(k)
  {
    match k
    case Vital => VitalSignEntity(id, 145.0, "mmHg")
    case Code => MedicalCodeEntity(id, "E11.9", DiabetesDescription)
    case Concept => ObservationConceptEntity(id, MedicationText, MedicationConceptId)
  }

  /** The model each group's entity is an instance of. */
  function KindType(k: Kind): EntityType {
    match k
    case Vital => ObservationNumberType
    case Code => MedicalCodeType
    case Concept => ObservationConceptType
  }

  /** What each group's entity holds: a 145.0 mmHg vital sign of high priority, the ICD-10-CM
      code E11.9 of medium priority, or the medication concept of medium priority; each
      carries the uuid it was given and is of its group's model, and of no other. */
  lemma BuiltEntities(id: Uuid, k: Kind)
    ensures var v := Build(Vital, id);
            v.ObservationNumber? && v.value == 145.0 && v.valueUnit == "mmHg" && v.priority == High
    ensures var c := Build(Code, id);
            && c.MedicalCode? && c.code.identifier == "E11.9" && c.code.system == "ICD-10-CM"
            && c.code.systemUrl == "http://hl7.org/fhir/sid/icd-10-cm" && c.priority == Priority.Medium
    ensures var o := Build(Concept, id);
            o.ObservationConcept? && o.concept.conceptId == "medication-concept-001" && o.priority == Priority.Medium
    ensures Build(k, id).id == id && TypeOf(Build(k, id)) == KindType(k)
    ensures forall j :: KindType(j) == KindType(k) ==> j == k
  {
  }

  /** The entities for a list of groups, the i-th drawing uuid `first + i`. */
  function EntitiesOf(ks: seq<Kind>, first: nat): (es: seq<Entity>)
    ensures |es| == |ks|
    ensures forall i :: 0 <= i < |es| ==> es[i].id == Uuid(first + i)
  {
    seq(|ks|, i requires 0 <= i < |ks| => Build(ks[i], Uuid(first + i)))
  }

  /** The entities carry pairwise different uuids. */
  lemma EntityIdsDistinct(ks: seq<Kind>, first: nat)
    ensures forall i, j :: 0 <= i < j < |ks| ==> EntitiesOf(ks, first)[i].id != EntitiesOf(ks, first)[j].id
  {
  }

  /** Appending one group appends its entity, with the next uuid. */
  lemma EntitiesOfSnoc(ks: seq<Kind>, k: Kind, first: nat)
    ensures EntitiesOf(ks + [k], first) == EntitiesOf(ks, first) + [Build(k, Uuid(first + |ks|))]
  {
  }

  /** Appending groups appends their entities, numbered on from where the list left off. */
  lemma EntitiesOfAppend(a: seq<Kind>, b: seq<Kind>, first: nat)
    ensures EntitiesOf(a + b, first) == EntitiesOf(a, first) + EntitiesOf(b, first + |a|)
  {
  }

  /** The entities of the first i + 1 resources are those of the first i, followed by
      those of resource i, numbered on. */
  lemma EntitiesStep(rs: seq<NoteResource>, i: nat, table: KeywordSets, first: nat)
    requires i < |rs|
    ensures EntitiesOf(Kinds(rs[..i + 1], table), first)
         == EntitiesOf(Kinds(rs[..i], table), first) + EntitiesOf(KindsFor(rs[i].content, table), first + |Kinds(rs[..i], table)|)
  {
    assert rs[..i + 1] == rs[..i] + [rs[i]];
    KindsAppendOne(rs[..i], rs[i], table);
    EntitiesOfAppend(Kinds(rs[..i], table), KindsFor(rs[i].content, table), first);
  }

  /** `sum(1 for e in entities if getattr(e, 'type', None) == TypeName(t))`. */
  function CountType(es: seq<Entity>, t: EntityType): (n: nat)
    ensures n <= |es|
    decreases |es|
  {
    if es == [] then 0 else CountType(es[..|es| - 1], t) + (if TypeOf(es[|es| - 1]) == t then 1 else 0)
  }

  lemma CountTypeSnoc(es: seq<Entity>, e: Entity, t: EntityType)
    ensures CountType(es + [e], t) == CountType(es, t) + (if TypeOf(e) == t then 1 else 0)
  {
    assert (es + [e])[..|es|] == es;
  }

  /** The medication, condition and vital counts of a summary add up to the entity count. */
  lemma {:induction false} CountsSum(es: seq<Entity>)
    ensures CountType(es, ObservationConceptType) + CountType(es, MedicalCodeType) + CountType(es, ObservationNumberType) == |es|
    decreases |es|
  {
    if es != [] {
      CountsSum(es[..|es| - 1]);
    }
  }

  /** Each `type` count is the number of times its group matched. */
  lemma {:induction false} CountTypeOfKinds(ks: seq<Kind>, first: nat, k: Kind)
    ensures CountType(EntitiesOf(ks, first), KindType(k)) == KindCount(ks, k)
    decreases |ks|
  {
    if ks != [] {
      var init := ks[..|ks| - 1];
      var last := ks[|ks| - 1];
      assert ks == init + [last];
      CountTypeOfKinds(init, first, k);
      EntitiesOfSnoc(init, last, first);
      CountTypeSnoc(EntitiesOf(init, first), Build(last, Uuid(first + |init|)), KindType(k));
      BuiltEntities(Uuid(first + |init|), last);
    }
  }

  /** The "Vitals Detected" count is the number of resources mentioning blood pressure, and
      likewise for conditions and medications. */
  lemma SummaryCountsAreMatchingResources(rs: seq<NoteResource>, table: KeywordSets, first: nat)
    ensures var es := EntitiesOf(Kinds(rs, table), first);
            && CountType(es, ObservationNumberType) == MatchingResources(rs, table.bloodPressure)
            && CountType(es, MedicalCodeType) == MatchingResources(rs, table.diabetes)
            && CountType(es, ObservationConceptType) == MatchingResources(rs, table.medication)
  {
    CountTypeOfKinds(Kinds(rs, table), first, Vital);
    CountTypeOfKinds(Kinds(rs, table), first, Code);
    CountTypeOfKinds(Kinds(rs, table), first, Concept);
    KindCountIsMatchingResources(rs, table, Vital);
    KindCountIsMatchingResources(rs, table, Code);
    KindCountIsMatchingResources(rs, table, Concept);
  }

  // ---------------------------------------------------------------- cards

  /** An adaptive-card action. */
  datatype CardAction = CardAction(title: string, action: string, actionType: string, code: Option<string>)

  /** An entry of `payloadSources`. */
  datatype PayloadSource = PayloadSource(identifier: Uuid, description: string, url: string)

  /** The values the card bodies give to the Adaptive Card `size`, `spacing`, `style`,
      `weight`, `color` and `horizontalAlignment` properties. */
  datatype Size = Small | Medium | Large
  datatype Spacing = SpacingNone | SpacingSmall | SpacingMedium
  datatype ContainerStyle = Emphasis | Attention

  /** The properties a text block sets besides its text; `bolder`, `accent`, `wrap` and
      `alignRight` stand for `"weight": "Bolder"`, `"color": "Accent"`, `"wrap": True` and
      `"horizontalAlignment": "Right"`. */
  datatype TextStyle = TextStyle(
    bolder: bool, size: Option<Size>, accent: bool, wrap: bool, spacing: Option<Spacing>, alignRight: bool)

  /** The fixed texts of the card bodies. */
  datatype Label =
    | EntitiesHeading | NoEntitiesNotice
    | MedicationHeading | MedicationSubheading | MedicationsDetected | ConditionsDetected | VitalsDetected
    | TimelineHeading

  function LabelText(l: Label): string {
    match l
    case EntitiesHeading => "\U{1F50D} Clinical Entities Extracted"
    case NoEntitiesNotice => "\U{2139}\U{FE0F} No clinical entities were detected in this note."
    case MedicationHeading => "Patient Medication Analysis"
    case MedicationSubheading => "Demo analysis based on detected entities"
    case MedicationsDetected => "Medications Detected:"
    case ConditionsDetected => "Conditions Detected:"
    case VitalsDetected => "Vitals Detected:"
    case TimelineHeading => "Lab / Clinical Trend Analysis (Demo)"
  }

  /** A text of a card body, kept as the template it is written from; `RenderText` gives the
      string the service builds. */
  datatype CardText =
    | Fixed(name: Label)
    | FoundCount(n: nat)
    | BoldType(t: EntityType)
    | IdText(id: Uuid)
    | ProcessedAt(now: string)
    | DetectedCount(n: nat)

  function RenderText(t: CardText): string {
    match t
    case Fixed(l) => LabelText(l)
    case FoundCount(n) => "Found " + NatToString(n) + " clinical " + (if n == 1 then "entity" else "entities") + " in the note"
    case BoldType(ty) => "**" + TypeName(ty) + "**"
    case IdText(id) => UuidText(id)
    case ProcessedAt(now) => "Processed at " + now
    case DetectedCount(n) => "Detected " + NatToString(n) + " entities to date"
  }

  /** A fact: its title and the count it shows (`f"{count}"`). */
  datatype Fact = Fact(title: Label, count: nat)

  /** An element of a card body. */
  datatype Block =
    | TextBlock(text: CardText, style: TextStyle)
    | Container(containerStyle: Option<ContainerStyle>, spacing: Option<Spacing>, items: seq<Block>)
    | FactSet(facts: seq<Fact>)

  /** An adaptive card payload: `{"type": "AdaptiveCard", "version": ..., "body": ...}`. */
  datatype CardPayload = CardPayload(version: string, body: seq<Block>)

  /** The three card builders of the service. */
  datatype CardKind = EntityListCard | MedicationSummaryCard | TimelineCard

  /** `VisualizationResource`, whose frozen `type` is "AdaptiveCard". The fields a builder
      always sets to the same value (`subtype`, `cardTitle`, `actions`, the description and
      url of the payload source, `partnerLogo`) are functions of the builder below; the
      record holds what varies: the card's uuid, its payload, whether it keeps its actions,
      its payload source's uuid and the time stamp of its copy data. A `None` field is not
      on the stored object. */
  datatype Visualization = Visualization(
    builder: CardKind,
    id: Uuid,
    adaptiveCardPayload: Option<CardPayload>,
    hasActions: bool,
    sourceId: Uuid,
    generatedAt: Option<string>)

  const ExtensionPrefix := "Dragon Predict"
  const ProcessUrl := "http://localhost/v1/process"
  const CardVersion := "1.3"

  /** The composite cards' titles, written in pieces around the word each is found by. */
  const MedicationSummaryTitle := "Medication" + " Summary & Recommendations (Demo)"
  const TimelineTitle := "Recent Clinical Entities " + "Timeline" + " (Demo)"

  function Subtype(k: CardKind): string {
    match k
    case EntityListCard => "note"
    case MedicationSummaryCard => "Note"
    case TimelineCard => "timeline"
  }

  function CardTitle(k: CardKind): string {
    match k
    case EntityListCard => ExtensionPrefix
    case MedicationSummaryCard => MedicationSummaryTitle
    case TimelineCard => TimelineTitle
  }

  /** The actions each builder passes. */
  function Actions(k: CardKind): (a: seq<CardAction>)
    ensures 2 <= |a| <= 3
  {
    match k
    case EntityListCard =>
      [CardAction("Accept Analysis", "Accept", "Primary", None),
       CardAction("Copy to Note", "Copy", "Secondary", None),
       CardAction("Reject Analysis", "Reject", "Tertiary", None)]
    case MedicationSummaryCard =>
      [CardAction("Accept Recommendations", "accept", "primary", None),
       CardAction("Reject Changes", "reject", "secondary", None),
       CardAction("Copy Full Analysis", "copy", "tertiary", Some("DEMO ANALYSIS\nEntities summary included."))]
    case TimelineCard =>
      [CardAction("View Full Results", "accept", "primary", None),
       CardAction("Copy Timeline Data", "copy", "tertiary", Some("TIMELINE DEMO\nNo real data."))]
  }

  function SourceDescription(k: CardKind): string {
    match k
    case EntityListCard => "Sample Extension Clinical Entity Extractor (Python)"
    case MedicationSummaryCard => "Python Demo Medication Analysis Service"
    case TimelineCard => "Python Demo Timeline Service"
  }

  function PartnerLogo(k: CardKind): Option<string> {
    if k == MedicationSummaryCard then Some("https://contoso.com/logo.png") else None
  }

  /** `actions`, when the card keeps them. */
  function StoredActions(v: Visualization): Option<seq<CardAction>> {
    if v.hasActions then Some(Actions(v.builder)) else None
  }

  /** `payloadSources`: the one source, under the uuid drawn for it. */
  function PayloadSources(v: Visualization): seq<PayloadSource> {
    [PayloadSource(v.sourceId, SourceDescription(v.builder), ProcessUrl)]
  }

  /** `dragonCopilotCopyData`; the composite cards append the time they were built. */
  function CopyData(v: Visualization): string {
    var stamp := if v.generatedAt.Some? then v.generatedAt.value else "";
    match v.builder
    case EntityListCard => "Clinical entities extracted from note content"
    case MedicationSummaryCard => "medication_analysis|" + "demo:1" + "|generated:" + stamp
    case TimelineCard => "lab_timeline|" + "demo:1" + "|generated:" + stamp
  }

  /** A text style setting only the size, and the weight, wrapping and spacing given. */
  function Style(bolder: bool, size: Size, wrap: bool, spacing: Option<Spacing>): TextStyle {
    TextStyle(bolder, Some(size), false, wrap, spacing, false)
  }

  const HeaderBlock: Block := TextBlock(Fixed(EntitiesHeading), TextStyle(true, Some(Large), true, false, None, false))

  function FoundBlock(n: nat): Block {
    TextBlock(FoundCount(n), Style(false, Size.Medium, true, Some(SpacingSmall)))
  }

  /** The container listing one entity: its type in bold, then its id. */
  function EntityBlock(e: Entity): Block {
    Container(Some(Emphasis), Some(SpacingMedium), [
      TextBlock(BoldType(TypeOf(e)), Style(true, Size.Medium, false, None)),
      TextBlock(IdText(e.id), Style(false, Small, true, None))])
  }

  const NoEntitiesBlock: Block :=
    Container(Some(Attention), None, [TextBlock(Fixed(NoEntitiesNotice), TextStyle(false, None, false, true, None, false))])

  function ProcessedAtBlock(now: string): Block {
    TextBlock(ProcessedAt(now), TextStyle(false, Some(Small), false, false, Some(SpacingMedium), true))
  }

  /** One container per entity, in entity order. */
  function EntityBlocks(es: seq<Entity>): (bs: seq<Block>)
    ensures |bs| == |es|
    ensures forall i :: 0 <= i < |es| ==> bs[i] == EntityBlock(es[i])
  {
    seq(|es|, i requires 0 <= i < |es| => EntityBlock(es[i]))
  }

  /** The body `_adaptive_card` builds. */
  function CardBody(es: seq<Entity>, now: string): seq<Block> {
    [HeaderBlock, FoundBlock(|es|)] + (if es != [] then EntityBlocks(es) else [NoEntitiesBlock]) + [ProcessedAtBlock(now)]
  }

  /** The body has the two heading blocks, one block per entity (or the single fallback
      block when there is none) and the time stamp: |es| + 3 blocks, or 4. Block i + 2 names
      the type and the id of entity i. */
  lemma CardBodyShape(es: seq<Entity>, now: string)
    ensures var b := CardBody(es, now);
            && |b| == (if es == [] then 4 else |es| + 3)
            && b[0] == HeaderBlock && b[1] == FoundBlock(|es|) && b[|b| - 1] == ProcessedAtBlock(now)
            && (es == [] ==> b[2] == NoEntitiesBlock)
            && forall i :: 0 <= i < |es| ==> b[i + 2] == EntityBlock(es[i])
  {
  }

  /** The entity block shows the entity's `type` in bold, then its id. */
  lemma EntityBlockTexts(e: Entity)
    ensures RenderText(EntityBlock(e).items[0].text) == "**" + TypeName(TypeOf(e)) + "**" && EntityBlock(e).items[0].style.bolder
    ensures RenderText(EntityBlock(e).items[1].text) == UuidText(e.id)
  {
  }

  /** The second block counts the entities, in the singular for exactly one; the last one
      shows the time it was read. */
  lemma FoundTextNumber(n: nat, now: string)
    ensures RenderText(FoundBlock(1).text) == "Found " + "1" + " clinical " + "entity" + " in the note"
    ensures n != 1 ==> RenderText(FoundBlock(n).text) == "Found " + NatToString(n) + " clinical " + "entities" + " in the note"
    ensures RenderText(ProcessedAtBlock(now).text) == "Processed at " + now
  {
    assert NatToString(1) == "1";
  }

  /** The blocks `_adaptive_card` appends after its two headings: one per entity, or the
      fallback block when there is none. */
  method EntityListBlocks(entities: seq<Entity>) returns (blocks: seq<Block>)
    ensures blocks == if entities != [] then EntityBlocks(entities) else [NoEntitiesBlock]
  {
    if entities == [] {
      return [NoEntitiesBlock];
    }
    blocks := [];
    var i := 0;
    while i < |entities|
      invariant 0 <= i <= |entities|
      invariant blocks == EntityBlocks(entities[..i])
    {
      assert EntityBlocks(entities[..i + 1]) == EntityBlocks(entities[..i]) + [EntityBlock(entities[i])];
      blocks := blocks + [EntityBlock(entities[i])];
      i := i + 1;
    }
    assert entities[..i] == entities;
  }

  /** `_adaptive_card`'s resource, with all the arguments it is given: the entity-list card
      under the two uuids, with a version 1.3 body of |es| + 3 blocks, or 4 when there is
      no entity. */
  function AdaptiveCardOf(es: seq<Entity>, id: Uuid, sourceId: Uuid, now: string): (v: Visualization)
    ensures v.builder == EntityListCard && v.id == id && v.sourceId == sourceId
    ensures v.adaptiveCardPayload.Some? && v.adaptiveCardPayload.value.version == "1.3"
    ensures |v.adaptiveCardPayload.value.body| == if es == [] then 4 else |es| + 3
  {
    Visualization(EntityListCard, id, Some(CardPayload(CardVersion, CardBody(es, now))), true, sourceId, None)
  }

  /** The entity card is the "note" card titled with the extension prefix; it offers to
      accept, copy or reject the analysis; its one payload source is the entity extractor at
      the process url, under the second uuid; its copy data is fixed. */
  lemma AdaptiveCardFields(es: seq<Entity>, id: Uuid, sourceId: Uuid, now: string)
    ensures var v := AdaptiveCardOf(es, id, sourceId, now);
            && v.id == id && Subtype(v.builder) == "note" && CardTitle(v.builder) == "Dragon Predict"
            && StoredActions(v).Some? && |StoredActions(v).value| == 3
            && StoredActions(v).value[0].action == "Accept" && StoredActions(v).value[1].action == "Copy"
            && StoredActions(v).value[2].action == "Reject"
            && PayloadSources(v) == [PayloadSource(sourceId, "Sample Extension Clinical Entity Extractor (Python)", "http://localhost/v1/process")]
            && CopyData(v) == "Clinical entities extracted from note content" && PartnerLogo(v.builder).None?
  {
  }

  /** The summary card's body: a heading container and a fact set of the three counts. */
  function SummaryBody(es: seq<Entity>): seq<Block> {
    [Container(None, Some(SpacingMedium), [
       TextBlock(Fixed(MedicationHeading), Style(true, Large, false, Some(SpacingNone))),
       TextBlock(Fixed(MedicationSubheading), Style(false, Small, true, Some(SpacingSmall)))]),
     FactSet([Fact(MedicationsDetected, CountType(es, ObservationConceptType)),
              Fact(ConditionsDetected, CountType(es, MedicalCodeType)),
              Fact(VitalsDetected, CountType(es, ObservationNumberType))])]
  }

  /** `_composite_medication_summary`, with all the arguments it is given: the summary
      card, stamped with the time, whose second block is a fact set of three counts that
      add up to the number of entities. */
  function MedicationSummaryOf(es: seq<Entity>, id: Uuid, sourceId: Uuid, now: string): (v: Visualization)
    ensures v.builder == MedicationSummaryCard && v.id == id && v.sourceId == sourceId && v.generatedAt == Some(now)
    ensures v.adaptiveCardPayload.Some? && |v.adaptiveCardPayload.value.body| == 2
    ensures var b := v.adaptiveCardPayload.value.body;
            && b[1].FactSet? && |b[1].facts| == 3
            && b[1].facts[0].count + b[1].facts[1].count + b[1].facts[2].count == |es|
  {
    CountsSum(es);
    Visualization(MedicationSummaryCard, id, Some(CardPayload(CardVersion, SummaryBody(es))), true, sourceId, Some(now))
  }

  function TimelineBody(es: seq<Entity>): seq<Block> {
    [Container(None, None, [
       TextBlock(Fixed(TimelineHeading), Style(true, Size.Medium, false, None)),
       TextBlock(DetectedCount(|es|), Style(false, Small, false, Some(SpacingSmall)))])]
  }

  /** `_timeline_card`, with all the arguments it is given: the timeline card, stamped with
      the time, whose heading container counts all entities. */
  function TimelineOf(es: seq<Entity>, id: Uuid, sourceId: Uuid, now: string): (v: Visualization)
    ensures v.builder == TimelineCard && v.id == id && v.sourceId == sourceId && v.generatedAt == Some(now)
    ensures v.adaptiveCardPayload.Some? && v.adaptiveCardPayload.value.version == "1.3"
    ensures var b := v.adaptiveCardPayload.value.body;
            && |b| == 1 && b[0].Container? && |b[0].items| == 2
            && b[0].items[1].TextBlock? && b[0].items[1].text == DetectedCount(|es|)
  {
    Visualization(TimelineCard, id, Some(CardPayload(CardVersion, TimelineBody(es))), true, sourceId, Some(now))
  }

  /** The summary card's facts are the medication, condition and vital counts, in that
      order, and they add up to the entity count. */
  lemma SummaryFacts(es: seq<Entity>)
    ensures var facts := SummaryBody(es)[1].facts;
            && |facts| == 3
            && LabelText(facts[0].title) == "Medications Detected:" && facts[0].count == CountType(es, ObservationConceptType)
            && LabelText(facts[1].title) == "Conditions Detected:" && facts[1].count == CountType(es, MedicalCodeType)
            && LabelText(facts[2].title) == "Vitals Detected:" && facts[2].count == CountType(es, ObservationNumberType)
            && facts[0].count + facts[1].count + facts[2].count == |es|
  {
    CountsSum(es);
  }

  /** The timeline card's second text counts all entities. */
  lemma TimelineCount(es: seq<Entity>)
    ensures TimelineBody(es)[0].items[1].text == DetectedCount(|es|)
  {
  }

  /** What the plugin-result test looks for on the summary card: a title naming
      "Medication", at least one action, a version 1.3 payload, and copy data holding
      "demo:1" and ending in the time stamp. */
  lemma SummaryCardAsTested(es: seq<Entity>, id: Uuid, sourceId: Uuid, now: string)
    ensures var s := MedicationSummaryOf(es, id, sourceId, now);
            && Contains(CardTitle(s.builder), "Medication") && StoredActions(s).Some? && |StoredActions(s).value| >= 1
            && s.adaptiveCardPayload.Some? && s.adaptiveCardPayload.value.version == "1.3"
            && Contains(CopyData(s), "demo:1") && EndsWith(CopyData(s), now)
  {
    ContainsAtStart("Medication", " Summary & Recommendations (Demo)");
    ContainsInContext("medication_analysis|", "demo:1", "|generated:");
    ContainsExtended("medication_analysis|" + "demo:1" + "|generated:", "demo:1", now);
  }

  /** The same for the timeline card, whose title names "Timeline". */
  lemma TimelineCardAsTested(es: seq<Entity>, id: Uuid, sourceId: Uuid, now: string)
    ensures var t := TimelineOf(es, id, sourceId, now);
            && Contains(CardTitle(t.builder), "Timeline") && StoredActions(t).Some? && |StoredActions(t).value| >= 1
            && t.adaptiveCardPayload.Some? && t.adaptiveCardPayload.value.version == "1.3"
            && Contains(CopyData(t), "demo:1") && EndsWith(CopyData(t), now)
  {
    ContainsInContext("Recent Clinical Entities ", "Timeline", " (Demo)");
    ContainsInContext("lab_timeline|", "demo:1", "|generated:");
    ContainsExtended("lab_timeline|" + "demo:1" + "|generated:", "demo:1", now);
  }

  /** What a `VisualizationResource` keeps of its arguments: the model declares no
      `actions` and no `adaptiveCardPayload` (only `adaptive_card_payload`), and undeclared
      arguments are dropped. */
  function StoredAsDeclared(v: Visualization, payloadUnderDeclaredName: bool): (s: Visualization)
    ensures StoredActions(s).None?
    ensures s.adaptiveCardPayload.Some? <==> payloadUnderDeclaredName && v.adaptiveCardPayload.Some?
    ensures s.builder == v.builder && s.id == v.id && PayloadSources(s) == PayloadSources(v) && CopyData(s) == CopyData(v)
  {
    v.(hasActions := false, adaptiveCardPayload := if payloadUnderDeclaredName then v.adaptiveCardPayload else None)
  }

  /** The cards as the code stores them: the entity card keeps its payload (passed as
      `adaptive_card_payload`) but not its actions; the composite cards pass their payload
      as `adaptiveCardPayload`, so they keep neither, against what the plugin-result test
      expects of them. */
  lemma CardsAsWritten(es: seq<Entity>, a: Uuid, b: Uuid, c: Uuid, d: Uuid, t1: string, t2: string)
    ensures var s := StoredAsDeclared(MedicationSummaryOf(es, a, b, t1), false);
            s.adaptiveCardPayload.None? && StoredActions(s).None? && s != MedicationSummaryOf(es, a, b, t1)
    ensures var t := StoredAsDeclared(TimelineOf(es, c, d, t2), false);
            t.adaptiveCardPayload.None? && StoredActions(t).None? && t != TimelineOf(es, c, d, t2)
    ensures var e := StoredAsDeclared(AdaptiveCardOf(es, a, b, t1), true);
            e.adaptiveCardPayload == AdaptiveCardOf(es, a, b, t1).adaptiveCardPayload && StoredActions(e).None?
  {
  }

  // ---------------------------------------------------------------- responses

  /** A resource of a `DspResponse`: an entity or a card. */
  datatype Resource = EntityResource(entity: Entity) | CardResource(card: Visualization)

  /** `DspResponse`. */
  datatype DspResponse = DspResponse(schemaVersion: string, document: Option<map<string, Json>>, resources: seq<Resource>)

  /** The three responses `_process_note` returns. */
  datatype NoteResult = NoteResult(entities: DspResponse, adaptiveCard: DspResponse, composite: DspResponse)

  /** `ProcessResponse`. Its payload dictionary is empty (`None` here) when there is no
      note, and otherwise maps "sample-entities", "sample-entities-adaptive-card" and
      "samplePluginResult" to the three responses of the note. */
  datatype ProcessResponse = ProcessResponse(success: bool, message: string, payload: Option<NoteResult>)

  const SchemaVersion := "0.1"

  function AsResources(es: seq<Entity>): (rs: seq<Resource>)
    ensures |rs| == |es|
    ensures forall i :: 0 <= i < |es| ==> rs[i] == EntityResource(es[i])
  {
    seq(|es|, i requires 0 <= i < |es| => EntityResource(es[i]))
  }

  /** `if note.document`: a document that is there and not empty. */
  predicate HasDocument(note: Note) {
    note.document.Some? && note.document.value != map[]
  }

  /** `dict.get`: the value, or `None` (rendered `null`). */
  function Get(d: map<string, Json>, key: string): Json {
    if key in d then d[key] else JNull
  }

  const DefaultDocument := map["title" := JStr("Clinical Note Analysis"), "type" := JObj(map["text" := JStr("note")])]

  /** The composite result's document: the note's title and type, or a default title and
      type when the note has no document. */
  function CompositeDocument(note: Note): (d: map<string, Json>)
    ensures d.Keys == {"title", "type"}
  {
    if HasDocument(note) then map["title" := Get(note.document.value, "title"), "type" := Get(note.document.value, "type")]
    else DefaultDocument
  }

  /** An empty or missing document gives the default title and type; otherwise the
      document's own, `null` where it has none. */
  lemma CompositeDocumentCases(note: Note)
    ensures !HasDocument(note) ==> CompositeDocument(note) == map["title" := JStr("Clinical Note Analysis"), "type" := JObj(map["text" := JStr("note")])]
    ensures HasDocument(note) && "title" !in note.document.value ==> CompositeDocument(note)["title"] == JNull
    ensures HasDocument(note) && "title" in note.document.value ==> CompositeDocument(note)["title"] == note.document.value["title"]
    ensures HasDocument(note) && "type" in note.document.value ==> CompositeDocument(note)["type"] == note.document.value["type"]
  {
  }

  /** What `_process_note` returns for uuids numbered from `u0` and clock readings numbered
      from `c0`: the entities draw the first uuids, then each card draws two (its own and
      its source's) and reads the clock once. */
  function NoteResultOf(note: Note, table: KeywordSets, u0: nat, c0: nat, clock: nat -> string): (r: NoteResult)
    ensures |r.entities.resources| == |Kinds(ResourcesOf(note), table)|
    ensures |r.adaptiveCard.resources| == 1 && |r.composite.resources| == 2
    ensures r.composite.document == Some(CompositeDocument(note))
  {
    var es := EntitiesOf(Kinds(ResourcesOf(note), table), u0);
    NoteResultFrom(note, es, u0 + |es|, c0, clock)
  }

  /** The three responses for the entities `es`, the cards drawing uuids from `n` and
      clock readings from `c0`. */
  function NoteResultFrom(note: Note, es: seq<Entity>, n: nat, c0: nat, clock: nat -> string): NoteResult {
    NoteResult(
      DspResponse(SchemaVersion, note.document, AsResources(es)),
      DspResponse(SchemaVersion, note.document, [CardResource(AdaptiveCardOf(es, Uuid(n), Uuid(n + 1), clock(c0)))]),
      DspResponse(SchemaVersion, Some(CompositeDocument(note)),
                  [CardResource(MedicationSummaryOf(es, Uuid(n + 2), Uuid(n + 3), clock(c0 + 1))),
                   CardResource(TimelineOf(es, Uuid(n + 4), Uuid(n + 5), clock(c0 + 2)))]))
  }

  /** A resource as the code stores it: a card goes through the `VisualizationResource`
      constructor, an entity is kept. */
  function StoredResource(res: Resource, payloadUnderDeclaredName: bool): Resource {
    match res
    case CardResource(c) => CardResource(StoredAsDeclared(c, payloadUnderDeclaredName))
    case EntityResource(_) => res
  }

  /** What `_process_note` returns as the code stores it: every card goes through the
      `VisualizationResource` constructor, which keeps only the fields it declares. The
      entity card passes its payload as `adaptive_card_payload`, the composite cards as
      `adaptiveCardPayload`. */
  function NoteResultAsWritten(note: Note, table: KeywordSets, u0: nat, c0: nat, clock: nat -> string): NoteResult {
    var r := NoteResultOf(note, table, u0, c0, clock);
    r.(adaptiveCard := r.adaptiveCard.(resources := [StoredResource(r.adaptiveCard.resources[0], true)]),
       composite := r.composite.(resources := [StoredResource(r.composite.resources[0], false),
                                               StoredResource(r.composite.resources[1], false)]))
  }

  /** A stored composite card `w` against the card `r` the code built: same kind, uuid and
      copy data, but neither actions nor the payload `r` has. */
  predicate LosesActionsAndPayload(w: Resource, r: Resource) {
    && w.CardResource? && r.CardResource?
    && w.card.builder == r.card.builder && w.card.id == r.card.id && CopyData(w.card) == CopyData(r.card)
    && StoredActions(w.card).None? && w.card.adaptiveCardPayload.None? && r.card.adaptiveCardPayload.Some?
  }

  /** A stored entity card `w` against the card `r` the code built: it keeps the payload
      but not the actions. */
  predicate LosesActions(w: Resource, r: Resource) {
    && w.CardResource? && r.CardResource?
    && w.card.builder == r.card.builder && w.card.id == r.card.id
    && StoredActions(w.card).None? && w.card.adaptiveCardPayload == r.card.adaptiveCardPayload
  }

  /** As written, the result differs from the intended one only in its cards: the entities
      and documents are the same, the entity card keeps its payload but not its actions,
      and the two composite cards keep their kind, uuid and copy data but lose both their
      actions and their payload, so the two results differ. */
  lemma ResultAsWritten(note: Note, table: KeywordSets, u0: nat, c0: nat, clock: nat -> string)
    ensures var r := NoteResultOf(note, table, u0, c0, clock);
            var w := NoteResultAsWritten(note, table, u0, c0, clock);
            && w.entities == r.entities && w.adaptiveCard.document == r.adaptiveCard.document
            && w.composite.document == r.composite.document
            && |w.adaptiveCard.resources| == 1 && |w.composite.resources| == 2
            && LosesActions(w.adaptiveCard.resources[0], r.adaptiveCard.resources[0])
            && LosesActionsAndPayload(w.composite.resources[0], r.composite.resources[0])
            && LosesActionsAndPayload(w.composite.resources[1], r.composite.resources[1])
            && w != r
  {
  }

  /** A card as intended: it keeps at least one action and a version 1.3 payload. */
  predicate KeepsActionsAndPayload(res: Resource) {
    && res.CardResource? && StoredActions(res.card).Some? && |StoredActions(res.card).value| >= 1
    && res.card.adaptiveCardPayload.Some? && res.card.adaptiveCardPayload.value.version == "1.3"
  }

  /** As intended (and as the plugin-result test expects), every card of the result keeps
      its actions and carries a version 1.3 payload, the composite ones too. */
  lemma ResultAsIntended(note: Note, table: KeywordSets, u0: nat, c0: nat, clock: nat -> string)
    ensures var r := NoteResultOf(note, table, u0, c0, clock);
            && KeepsActionsAndPayload(r.adaptiveCard.resources[0])
            && KeepsActionsAndPayload(r.composite.resources[0])
            && KeepsActionsAndPayload(r.composite.resources[1])
  {
  }

  const ProcessedMessage := "Payload processed successfully"

  /** The response `process` returns for uuids numbered from `u0` and clock readings from
      `c0`. */
  function ProcessResult(payload: StandardPayload, table: KeywordSets, u0: nat, c0: nat, clock: nat -> string): (r: ProcessResponse)
    ensures r.success && r.message == ProcessedMessage
    ensures payload.note.None? <==> r.payload.None?
  {
    if payload.note.None? then ProcessResponse(true, ProcessedMessage, None)
    else ProcessResponse(true, ProcessedMessage, Some(NoteResultOf(payload.note.value, table, u0, c0, clock)))
  }

  // ---------------------------------------------------------------- the service

  /** `ProcessingService`, with what it draws on: its keyword table `KEYWORD_SETS`, the uuid
      generator and the UTC clock. Uuids are numbered in the order they are drawn, and the
      k-th clock reading is `clock(k)` in ISO format. */
  class ProcessingService {
    const keywords: KeywordSets
    const clock: nat -> string
    var uuidsDrawn: nat
    var clockReads: nat

    constructor(clock: nat -> string)
      ensures keywords == Keywords && this.clock == clock
      ensures uuidsDrawn == 0 && clockReads == 0
    {
      keywords := Keywords;
      this.clock := clock;
      uuidsDrawn := 0;
      clockReads := 0;
    }

    /** `uuid4()`. */
    method NextUuid() returns (u: Uuid)
      modifies this
      ensures u == Uuid(old(uuidsDrawn)) && uuidsDrawn == old(uuidsDrawn) + 1
      ensures clockReads == old(clockReads)
    {
      u := Uuid(uuidsDrawn);
      uuidsDrawn := uuidsDrawn + 1;
    }

    /** `datetime.now(timezone.utc).isoformat()`. */
    method Now() returns (t: string)
      modifies this
      ensures t == clock(old(clockReads)) && clockReads == old(clockReads) + 1
      ensures uuidsDrawn == old(uuidsDrawn)
    {
      t := clock(clockReads);
      clockReads := clockReads + 1;
    }

    /** `process`; the request and correlation ids are only logged. */
    method Process(payload: StandardPayload) returns (response: ProcessResponse)
      modifies this
      ensures response == ProcessResult(payload, keywords, old(uuidsDrawn), old(clockReads), clock)
    {
      response := ProcessResponse(true, ProcessedMessage, None);
      if payload.note.Some? {
        var r := ProcessNote(payload.note.value);
        response := response.(payload := Some(r));
      }
    }

    /** `_process_note`. */
    method ProcessNote(note: Note) returns (r: NoteResult)
      modifies this
      ensures r == NoteResultOf(note, keywords, old(uuidsDrawn), old(clockReads), clock)
      ensures uuidsDrawn == old(uuidsDrawn) + |Kinds(ResourcesOf(note), keywords)| + 6
      ensures clockReads == old(clockReads) + 3
    {
      ghost var c0 := clockReads;
      var entities := ExtractEntities(note);
      ghost var n := uuidsDrawn;
      var dspEntities := DspResponse(SchemaVersion, note.document, AsResources(entities));
      var card := AdaptiveCard(entities);
      var adaptive := DspResponse(SchemaVersion, note.document, [CardResource(card)]);
      var summary := MedicationSummary(entities);
      var timeline := Timeline(entities);
      var composite := DspResponse(SchemaVersion, Some(CompositeDocument(note)), [CardResource(summary), CardResource(timeline)]);
      r := NoteResult(dspEntities, adaptive, composite);
      assert r == NoteResultFrom(note, entities, n, c0, clock);
    }

    /** The entity part of `_process_note`: the resources' entities in resource order. */
    method ExtractEntities(note: Note) returns (entities: seq<Entity>)
      modifies this
      ensures entities == EntitiesOf(Kinds(ResourcesOf(note), keywords), old(uuidsDrawn))
      ensures uuidsDrawn == old(uuidsDrawn) + |entities| && clockReads == old(clockReads)
    {
      entities := [];
      var first := uuidsDrawn;
      var rs := ResourcesOf(note);
      var i := 0;
      while i < |rs|
        invariant 0 <= i <= |rs|
        invariant entities == EntitiesOf(Kinds(rs[..i], keywords), first)
        invariant uuidsDrawn == first + |Kinds(rs[..i], keywords)| && clockReads == old(clockReads)
      {
        var es := ResourceEntities(rs[i].content);
        EntitiesStep(rs, i, keywords, first);
        entities := entities + es;
        i := i + 1;
      }
      assert rs[..i] == rs;
    }

    /** The body of the loop of `_process_note` for one resource: nothing for empty
        content, else one entity per matching group, in test order, each drawing a fresh
        uuid. */
    method ResourceEntities(content: Option<string>) returns (es: seq<Entity>)
      modifies this
      ensures es == EntitiesOf(KindsFor(content, keywords), old(uuidsDrawn))
      ensures uuidsDrawn == old(uuidsDrawn) + |es| && clockReads == old(clockReads)
    {
      es := [];
      if IsEmptyContent(content) {
        return;
      }
      var first := uuidsDrawn;
      var upper := Upper(content.value);
      var vital := AnyKeyword(upper, keywords.bloodPressure);
      var code := AnyKeyword(upper, keywords.diabetes);
      var concept := AnyKeyword(upper, keywords.medication);
      ghost var ks: seq<Kind> := [];
      if vital {
        var id := NextUuid();
        EntitiesOfSnoc(ks, Vital, first);
        es := es + [VitalSignEntity(id, 145.0, "mmHg")];
        ks := ks + [Vital];
      }
      if code {
        var id := NextUuid();
        EntitiesOfSnoc(ks, Code, first);
        es := es + [MedicalCodeEntity(id, "E11.9", DiabetesDescription)];
        ks := ks + [Code];
      }
      if concept {
        var id := NextUuid();
        EntitiesOfSnoc(ks, Concept, first);
        es := es + [ObservationConceptEntity(id, MedicationText, MedicationConceptId)];
        ks := ks + [Concept];
      }
      assert ks == Groups(vital, code, concept);
    }

    /** `_adaptive_card`: the body is built block by block, the time stamp read while
        building it, then the card's uuid and its payload source's uuid are drawn. */
    method AdaptiveCard(entities: seq<Entity>) returns (card: Visualization)
      modifies this
      ensures card == AdaptiveCardOf(entities, Uuid(old(uuidsDrawn)), Uuid(old(uuidsDrawn) + 1), clock(old(clockReads)))
      ensures uuidsDrawn == old(uuidsDrawn) + 2 && clockReads == old(clockReads) + 1
    {
      var blocks := EntityListBlocks(entities);
      var body := [HeaderBlock, FoundBlock(|entities|)] + blocks;
      var now := Now();
      body := body + [ProcessedAtBlock(now)];
      var id := NextUuid();
      var source := NextUuid();
      card := Visualization(EntityListCard, id, Some(CardPayload(CardVersion, body)), true, source, None);
    }

    /** `_composite_medication_summary`: the card's uuid, then its source's, then the
        clock. */
    method MedicationSummary(entities: seq<Entity>) returns (card: Visualization)
      modifies this
      ensures card == MedicationSummaryOf(entities, Uuid(old(uuidsDrawn)), Uuid(old(uuidsDrawn) + 1), clock(old(clockReads)))
      ensures uuidsDrawn == old(uuidsDrawn) + 2 && clockReads == old(clockReads) + 1
    {
      var id := NextUuid();
      var source := NextUuid();
      var now := Now();
      card := MedicationSummaryOf(entities, id, source, now);
    }

    /** `_timeline_card`: the card's uuid, then its source's, then the clock. */
    method Timeline(entities: seq<Entity>) returns (card: Visualization)
      modifies this
      ensures card == TimelineOf(entities, Uuid(old(uuidsDrawn)), Uuid(old(uuidsDrawn) + 1), clock(old(clockReads)))
      ensures uuidsDrawn == old(uuidsDrawn) + 2 && clockReads == old(clockReads) + 1
    {
      var id := NextUuid();
      var source := NextUuid();
      var now := Now();
      card := TimelineOf(entities, id, source, now);
    }
  }

  // ---------------------------------------------------------------- properties of a run

  /** The response always reports success with the same message, and it has a payload
      exactly when the request has a note. */
  lemma ProcessResultShape(payload: StandardPayload, table: KeywordSets, u0: nat, c0: nat, clock: nat -> string)
    ensures var r := ProcessResult(payload, table, u0, c0, clock);
            && r.success && r.message == "Payload processed successfully"
            && (payload.note.None? <==> r.payload.None?)
            && (payload.note.Some? ==> r.payload == Some(NoteResultOf(payload.note.value, table, u0, c0, clock)))
  {
  }

  /** With a note: the entity list is the entities of the matched groups, at most three
      per resource; the adaptive-card response holds the entity card and the plugin result
      the summary card, then the timeline card; both non-composite responses carry the
      note's document. */
  lemma NoteResultShape(note: Note, table: KeywordSets, u0: nat, c0: nat, clock: nat -> string)
    ensures var r := NoteResultOf(note, table, u0, c0, clock);
            && |r.entities.resources| == |Kinds(ResourcesOf(note), table)| <= 3 * |ResourcesOf(note)|
            && |r.adaptiveCard.resources| == 1 && |r.composite.resources| == 2
            && r.adaptiveCard.resources[0].CardResource? && r.adaptiveCard.resources[0].card.builder == EntityListCard
            && r.composite.resources[0].card.builder == MedicationSummaryCard
            && r.composite.resources[1].card.builder == TimelineCard
            && r.entities.document == r.adaptiveCard.document == note.document
  {
    KindsBound(ResourcesOf(note), table);
  }

  /** The uuids of the result: the entities draw `u0`, `u0 + 1`, ... in order, and the
      entity card, its source, the summary card, its source, the timeline card and its
      source draw the six that follow, so no two of them are the same. */
  lemma NoteResultUuids(note: Note, table: KeywordSets, u0: nat, c0: nat, clock: nat -> string)
    ensures var r := NoteResultOf(note, table, u0, c0, clock);
            var n := u0 + |r.entities.resources|;
            && (forall i :: 0 <= i < |r.entities.resources| ==> r.entities.resources[i].entity.id == Uuid(u0 + i))
            && r.adaptiveCard.resources[0].card.id == Uuid(n) && r.adaptiveCard.resources[0].card.sourceId == Uuid(n + 1)
            && r.composite.resources[0].card.id == Uuid(n + 2) && r.composite.resources[0].card.sourceId == Uuid(n + 3)
            && r.composite.resources[1].card.id == Uuid(n + 4) && r.composite.resources[1].card.sourceId == Uuid(n + 5)
  {
  }

  /** A note without resources (or with none that matches) gives no entity, and the
      adaptive card then shows its fallback block: four blocks in all. */
  lemma EmptyNoteCard(note: Note, table: KeywordSets, u0: nat, c0: nat, clock: nat -> string)
    requires Kinds(ResourcesOf(note), table) == []
    ensures var r := NoteResultOf(note, table, u0, c0, clock);
            && r.entities.resources == []
            && |r.adaptiveCard.resources[0].card.adaptiveCardPayload.value.body| == 4
            && r.adaptiveCard.resources[0].card.adaptiveCardPayload.value.body[2] == NoEntitiesBlock
  {
    CardBodyShape([], clock(c0));
  }
}
