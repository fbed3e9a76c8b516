/** The manifest validator of the CLI: the outcome of the JSON-schema check (an input, as
    the schema engine is a library) combined with business rules on the manifest's tools,
    automation scripts and event triggers; the walk from a dotted field path to the part of
    a schema it names; and the display names of publisher fields. */
module SchemaValidator {
  import opened Text
  import opened Json

  /** `params` of a schema error, by the rule that made it. */
  datatype Params =
    | DuplicateParams(duplicates: seq<Json>)
    | MissingScriptParams(trigger: Option<Json>, script: Json)
    | EngineParams(value: Json)

  /** `SchemaError`. */
  datatype SchemaError = SchemaError(
    instancePath: string,
    keyword: string,
    message: string,
    data: Option<Json>,
    schemaPath: string,
    params: Params)

  /** `ValidationResult`. */
  datatype ValidationResult = ValidationResult(isValid: bool, errors: seq<SchemaError>)

  /** An error as the schema engine reports it; its text fields may be missing. */
  datatype EngineError = EngineError(
    instancePath: Option<string>,
    keyword: Option<string>,
    message: Option<string>,
    data: Option<Json>,
    schemaPath: Option<string>,
    params: Json)

  /** What running a compiled schema gives: whether the value passed, and the engine's error
      list, which may be missing. */
  datatype EngineOutcome = EngineOutcome(passed: bool, errors: Option<seq<EngineError>>)

  /** `x || ''` on an optional string. */
  function OrDefault(x: Option<string>, d: string): (r: string)
    ensures x.Some? && x.value != "" ==> r == x.value
    ensures x.None? || x.value == "" ==> r == d
  {
    if x.Some? && x.value != "" then x.value else d
  }

  /** `convertAjvError`: missing or empty text fields become "" (the keyword "unknown"). */
  function ConvertEngineError(e: EngineError): (r: SchemaError)
    ensures r.keyword != "" && r.params == EngineParams(e.params) && r.data == e.data
    ensures e.message.Some? ==> r.message == e.message.value
  {
    SchemaError(OrDefault(e.instancePath, ""), OrDefault(e.keyword, "unknown"), OrDefault(e.message, ""),
                e.data, OrDefault(e.schemaPath, ""), EngineParams(e.params))
  }

  /** `validateExtensionManifestSchema` (and its partner and publisher twins): no errors on
      success, otherwise the engine's errors converted one by one. */
  function SchemaResult(outcome: EngineOutcome): (r: ValidationResult)
    ensures r.isValid == outcome.passed
    ensures r.isValid ==> r.errors == []
    ensures !r.isValid && outcome.errors.Some? ==>
              |r.errors| == |outcome.errors.value|
              && forall k :: 0 <= k < |r.errors| ==> r.errors[k] == ConvertEngineError(outcome.errors.value[k])
  {
    if outcome.passed then ValidationResult(true, [])
    else
      var es := if outcome.errors.Some? then outcome.errors.value else [];
      ValidationResult(false, seq(|es|, k requires 0 <= k < |es| => ConvertEngineError(es[k])))
  }

  // ---- business rules ----

  /** `Array.isArray(manifest[key]) ? manifest[key] : []`. */
  function ListAt(manifest: Json, key: string): (r: seq<Json>)
    ensures Prop(manifest, key).Some? && Prop(manifest, key).value.JArr? ==> r == Prop(manifest, key).value.items
    ensures !(Prop(manifest, key).Some? && Prop(manifest, key).value.JArr?) ==> r == []
  {
    var v := Prop(manifest, key);
    if v.Some? && v.value.JArr? then v.value.items else []
  }

  /** `items.map(item => item?.name).filter(Boolean)`: the truthy names, in order. */
  function NameValues(items: seq<Json>): (r: seq<Json>)
    ensures |r| <= |items|
    ensures forall k :: 0 <= k < |r| ==> Truthy(r[k])
  {
    if items == [] then []
    else
      var n := Prop(items[0], "name");
      (if TruthyOpt(n) then [n.value] else []) + NameValues(items[1..])
  }

  /** `names.indexOf(names[i]) !== i`: an equal value occurs earlier. */
  predicate RepeatsEarlier(names: seq<Json>, i: nat)
    requires i < |names|
  {
    IsPrimitive(names[i]) && names[i] in names[..i]
  }

  /** `names.filter((name, index) => names.indexOf(name) !== index)`. */
  function Duplicates(names: seq<Json>): (r: seq<Json>)
    ensures forall x :: x in r ==> IsPrimitive(x) && x in names
    decreases |names|
  {
    if names == [] then []
    else
      var n := |names| - 1;
      var init := names[..n];
      Duplicates(init) + (if RepeatsEarlier(names, n) then [names[n]] else [])
  }

  /** `x` is a primitive found at two positions of `names`. */
  ghost predicate Repeated(names: seq<Json>, x: Json) {
    IsPrimitive(x) && exists i, j :: 0 <= i < j < |names| && names[i] == x && names[j] == x
  }

  /** A value is a duplicate exactly when it is a primitive found at two positions. */
  lemma {:induction false} DuplicatesMembers(names: seq<Json>, x: Json)
    ensures x in Duplicates(names) <==> Repeated(names, x)
    decreases |names|
  {
    if names != [] {
      var n := |names| - 1;
      var init := names[..n];
      DuplicatesMembers(init, x);
      if Repeated(names, x) {
        RepeatedSplit(names, x);
      }
      if Repeated(init, x) {
        RepeatedGrows(init, names, x);
      }
      if RepeatsEarlier(names, n) && names[n] == x {
        var i :| 0 <= i < n && init[i] == x;
        assert names[i] == x && names[n] == x;
      }
    }
  }

  /** A repeat in a sequence is a repeat in the sequence without its last element, or
      a last element found earlier. */
  lemma RepeatedSplit(names: seq<Json>, x: Json)
    requires Repeated(names, x)
    ensures var n := |names| - 1;
            Repeated(names[..n], x) || (names[n] == x && RepeatsEarlier(names, n))
  {
    var n := |names| - 1;
    var init := names[..n];
    var i, j :| 0 <= i < j < |names| && names[i] == x && names[j] == x;
    if j < n {
      assert init[i] == x && init[j] == x;
    } else {
      assert init[i] == x;
    }
  }

  lemma RepeatedGrows(init: seq<Json>, names: seq<Json>, x: Json)
    requires Repeated(init, x) && |init| < |names| && init == names[..|init|]
    ensures Repeated(names, x)
  {
    var i, j :| 0 <= i < j < |init| && init[i] == x && init[j] == x;
    assert names[i] == x && names[j] == x;
  }

  /** `[...new Set(values)]`: first occurrences, in order. */
  function Unique(values: seq<Json>): (r: seq<Json>)
    ensures forall x :: x in r <==> x in values
    ensures forall i, j :: 0 <= i < j < |r| ==> r[i] != r[j]
    decreases |values|
  {
    if values == [] then []
    else
      var n := |values| - 1;
      var init := Unique(values[..n]);
      assert forall x :: x in values <==> x in values[..n] || x == values[n] by {
        assert values == values[..n] + [values[n]];
      }
      init + (if values[n] in values[..n] then [] else [values[n]])
  }

  /** One rule of the uniqueness kind: the path and schema path it reports under, its
      keyword, and the words naming the items in its message. */
  datatype UniqueRule = UniqueRule(path: string, keyword: string, noun: string)

  const ToolRule := UniqueRule("/tools", "uniqueToolNames", "tool")
  const ScriptRule := UniqueRule("/automationScripts", "uniqueAutomationScriptNames", "automation script")
  const TriggerRule := UniqueRule("/eventTriggers", "uniqueEventTriggerNames", "event trigger")

  /** `uniqueDuplicates.join(', ')`. */
  function JoinValues(values: seq<Json>): string {
    if values == [] then ""
    else if |values| == 1 then Render(values[0])
    else Render(values[0]) + ", " + JoinValues(values[1..])
  }

  /** The error a uniqueness rule reports for these duplicates. */
  function DuplicateError(rule: UniqueRule, items: seq<Json>, unique: seq<Json>): SchemaError {
    SchemaError(rule.path, rule.keyword, "Duplicate " + rule.noun + " names found: " + JoinValues(unique),
                Some(JArr(items)), "#" + rule.path, DuplicateParams(unique))
  }

  /** The uniqueness check on one list: nothing for fewer than two items, otherwise one
      error listing each repeated name once, if there is a repeat. */
  function UniqueNameErrors(rule: UniqueRule, items: seq<Json>): (r: seq<SchemaError>)
    ensures |r| <= 1
    ensures |r| == 1 ==> r[0].keyword == rule.keyword && r[0].instancePath == rule.path
  {
    if |items| > 1 then
      var d := Duplicates(NameValues(items));
      if |d| > 0 then [DuplicateError(rule, items, Unique(d))] else []
    else []
  }

  /** Some truthy primitive name is carried by two items. */
  ghost predicate HasRepeat(names: seq<Json>) {
    exists x :: Repeated(names, x)
  }

  /** The rule fires exactly when two items carry the same truthy primitive name. */
  lemma UniqueNameErrorIff(rule: UniqueRule, items: seq<Json>)
    ensures |UniqueNameErrors(rule, items)| == 1 <==> HasRepeat(NameValues(items))
  {
    var names := NameValues(items);
    var d := Duplicates(names);
    if HasRepeat(names) {
      var x :| Repeated(names, x);
      DuplicatesMembers(names, x);
      var i, j :| 0 <= i < j < |names| && names[i] == x && names[j] == x;
      assert |names| <= |items|;
    }
    if |d| > 0 {
      assert d[0] in d;
      DuplicatesMembers(names, d[0]);
    }
  }

  /** The error lists every repeated name exactly once, and nothing else. */
  lemma DuplicatesListedOnce(rule: UniqueRule, items: seq<Json>)
    requires |UniqueNameErrors(rule, items)| == 1
    ensures var names := NameValues(items);
            var listed := UniqueNameErrors(rule, items)[0].params.duplicates;
            && (forall i, j :: 0 <= i < j < |listed| ==> listed[i] != listed[j])
            && (forall x :: x in listed <==> Repeated(names, x))
  {
    var names := NameValues(items);
    forall x ensures x in Unique(Duplicates(names)) <==> Repeated(names, x) {
      DuplicatesMembers(names, x);
    }
  }

  /** `new Set(scripts.map(s => s?.name).filter(Boolean)).has(v)`. */
  predicate InNameSet(v: Json, names: seq<Json>) {
    IsPrimitive(v) && v in names
  }

  /** `trigger?.scriptName && !scriptNames.has(trigger.scriptName)`. */
  predicate MissesScript(trigger: Json, scriptNames: seq<Json>) {
    TruthyOpt(Prop(trigger, "scriptName")) && !InNameSet(Prop(trigger, "scriptName").value, scriptNames)
  }

  /** `trigger?.name ?? 'unknown'`: only a missing or `null` name gives "unknown". */
  function TriggerLabel(trigger: Json): string {
    var n := Prop(trigger, "name");
    if n.None? || n.value.JNull? then "unknown" else Render(n.value)
  }

  /** A missing or `null` name gives "unknown"; a string name, the empty one too, is used
      as it is, since `??` only replaces `null` and `undefined`. */
  lemma TriggerLabelCases(trigger: Json)
    ensures Prop(trigger, "name").None? || Prop(trigger, "name") == Some(JNull) ==> TriggerLabel(trigger) == "unknown"
    ensures Prop(trigger, "name").Some? && Prop(trigger, "name").value.JStr? ==> TriggerLabel(trigger) == Prop(trigger, "name").value.s
  {
  }

  /** The error for a trigger naming a script that is not there. */
  function MissingScriptError(trigger: Json): SchemaError
    requires Prop(trigger, "scriptName").Some?
  {
    var script := Prop(trigger, "scriptName").value;
    SchemaError("/eventTriggers", "missingAutomationScript",
                "Event trigger '" + TriggerLabel(trigger) + "' references unknown script '" + Render(script) + "'",
                Some(trigger), "#/eventTriggers/items", MissingScriptParams(Prop(trigger, "name"), script))
  }

  /** The triggers that name a missing script, in order. */
  function MissingTriggers(triggers: seq<Json>, scriptNames: seq<Json>): (r: seq<Json>)
    ensures forall t :: t in r <==> t in triggers && MissesScript(t, scriptNames)
    ensures forall k :: 0 <= k < |r| ==> MissesScript(r[k], scriptNames)
    decreases |triggers|
  {
    if triggers == [] then []
    else
      var n := |triggers| - 1;
      assert forall t :: t in triggers <==> t in triggers[..n] || t == triggers[n] by {
        assert triggers == triggers[..n] + [triggers[n]];
      }
      MissingTriggers(triggers[..n], scriptNames) + (if MissesScript(triggers[n], scriptNames) then [triggers[n]] else [])
  }

  /** `forEach` visits the triggers in order: the triggers of a list made of two parts are
      those of the first part followed by those of the second. */
  lemma {:induction false} MissingTriggersAppend(a: seq<Json>, b: seq<Json>, scriptNames: seq<Json>)
    ensures MissingTriggers(a + b, scriptNames) == MissingTriggers(a, scriptNames) + MissingTriggers(b, scriptNames)
    decreases |b|
  {
    if b == [] {
      assert a + b == a;
    } else {
      var n := |b| - 1;
      var ab := a + b;
      LastOfAppend(a, b);
      MissingTriggersAppend(a, b[..n], scriptNames);
      var tail := if MissesScript(b[n], scriptNames) then [b[n]] else [];
      assert MissingTriggers(ab, scriptNames) == MissingTriggers(a + b[..n], scriptNames) + tail;
      assert MissingTriggers(b, scriptNames) == MissingTriggers(b[..n], scriptNames) + tail;
      Assoc3(MissingTriggers(a, scriptNames), MissingTriggers(b[..n], scriptNames), tail);
    }
  }

  lemma LastOfAppend<T>(a: seq<T>, b: seq<T>)
    requires b != []
    ensures (a + b)[..|a + b| - 1] == a + b[..|b| - 1] && (a + b)[|a + b| - 1] == b[|b| - 1]
  {
  }

  lemma Assoc3<T>(x: seq<T>, y: seq<T>, z: seq<T>)
    ensures x + y + z == x + (y + z)
  {
  }

  /** One trigger is kept exactly when it names a missing script. */
  lemma MissingTriggersSingle(t: Json, scriptNames: seq<Json>)
    ensures MissingTriggers([t], scriptNames) == if MissesScript(t, scriptNames) then [t] else []
  {
    assert [t][..0] == [];
  }

  /** Each trigger that names a missing script is kept as often as it occurs, every other
      trigger not at all. */
  lemma {:induction false} MissingTriggersCounts(triggers: seq<Json>, scriptNames: seq<Json>)
    ensures forall t :: multiset(MissingTriggers(triggers, scriptNames))[t]
                        == if MissesScript(t, scriptNames) then multiset(triggers)[t] else 0
    decreases |triggers|
  {
    if triggers != [] {
      var n := |triggers| - 1;
      MissingTriggersCounts(triggers[..n], scriptNames);
      assert triggers == triggers[..n] + [triggers[n]];
      assert multiset(triggers) == multiset(triggers[..n]) + multiset{triggers[n]};
    }
  }

  /** The reference rule's errors: one per trigger that names a missing script, in order;
      so there are never more errors than triggers. */
  function MissingScriptErrors(triggers: seq<Json>, scriptNames: seq<Json>): (r: seq<SchemaError>)
    ensures |r| <= |triggers|
    decreases |triggers|
  {
    if triggers == [] then []
    else
      var n := |triggers| - 1;
      MissingScriptErrors(triggers[..n], scriptNames)
        + (if MissesScript(triggers[n], scriptNames) then [MissingScriptError(triggers[n])] else [])
  }

  /** Each error of the reference rule is the error of the matching trigger among those
      that name a missing script: as many errors as such triggers, in the same order. */
  lemma {:induction false} MissingScriptErrorsPerTrigger(triggers: seq<Json>, scriptNames: seq<Json>)
    ensures var r := MissingScriptErrors(triggers, scriptNames);
            var missing := MissingTriggers(triggers, scriptNames);
            |r| == |missing| && forall k :: 0 <= k < |r| ==> r[k] == MissingScriptError(missing[k])
    decreases |triggers|
  {
    if triggers != [] {
      var n := |triggers| - 1;
      MissingScriptErrorsPerTrigger(triggers[..n], scriptNames);
      var front := MissingScriptErrors(triggers[..n], scriptNames);
      var missing := MissingTriggers(triggers[..n], scriptNames);
      if MissesScript(triggers[n], scriptNames) {
        assert MissingScriptErrors(triggers, scriptNames) == front + [MissingScriptError(triggers[n])];
        assert MissingTriggers(triggers, scriptNames) == missing + [triggers[n]];
      } else {
        assert MissingScriptErrors(triggers, scriptNames) == front;
        assert MissingTriggers(triggers, scriptNames) == missing;
      }
    }
  }

  /** The business-rule errors of a manifest: tool, script and trigger uniqueness, then
      the script references of the triggers. */
  function BusinessRuleErrors(manifest: Json): (r: seq<SchemaError>)
    ensures |r| <= 3 + |ListAt(manifest, "eventTriggers")|
  {
    var tools := ListAt(manifest, "tools");
    var scripts := ListAt(manifest, "automationScripts");
    var triggers := ListAt(manifest, "eventTriggers");
    var unique := UniqueNameErrors(ToolRule, tools)
      + UniqueNameErrors(ScriptRule, scripts)
      + UniqueNameErrors(TriggerRule, triggers);
    if |triggers| > 0 then unique + MissingScriptErrors(triggers, NameValues(scripts)) else unique
  }

  /** `validateExtensionBusinessRules`: pushes the errors of each rule in turn. A `null`
      manifest would throw on its first property access. */
  method ValidateBusinessRules(manifest: Json) returns (errors: seq<SchemaError>)
    requires manifest != JNull
    ensures errors == BusinessRuleErrors(manifest)
  {
    errors := [];
    var tools := ListAt(manifest, "tools");
    assert errors + UniqueNameErrors(ToolRule, tools) == UniqueNameErrors(ToolRule, tools);
    errors := errors + UniqueNameErrors(ToolRule, tools);
    var scripts := ListAt(manifest, "automationScripts");
    errors := errors + UniqueNameErrors(ScriptRule, scripts);
    var triggers := ListAt(manifest, "eventTriggers");
    errors := errors + UniqueNameErrors(TriggerRule, triggers);
    if |triggers| > 0 {
      var missing := CheckScriptReferences(triggers, NameValues(scripts));
      errors := errors + missing;
    }
  }

  /** The `eventTriggers.forEach` loop: one error pushed per trigger naming a missing
      script. */
  method CheckScriptReferences(triggers: seq<Json>, scriptNames: seq<Json>) returns (errors: seq<SchemaError>)
    ensures errors == MissingScriptErrors(triggers, scriptNames)
  {
    errors := [];
    var i := 0;
    while i < |triggers|
      invariant 0 <= i <= |triggers|
      invariant errors == MissingScriptErrors(triggers[..i], scriptNames)
    {
      var trigger := triggers[i];
      assert triggers[..i + 1][..i] == triggers[..i];
      assert triggers[..i + 1][i] == trigger;
      if MissesScript(trigger, scriptNames) {
        errors := errors + [MissingScriptError(trigger)];
      }
      i := i + 1;
    }
    assert triggers[..i] == triggers;
  }

  /** Missing lists and lists that are not arrays count as empty: such a manifest breaks no
      rule. */
  lemma NoListsNoErrors(manifest: Json)
    requires forall key :: key in ["tools", "automationScripts", "eventTriggers"] ==>
               !(Prop(manifest, key).Some? && Prop(manifest, key).value.JArr?)
    ensures BusinessRuleErrors(manifest) == []
  {
    assert "tools" in ["tools", "automationScripts", "eventTriggers"];
    assert "automationScripts" in ["tools", "automationScripts", "eventTriggers"];
    assert "eventTriggers" in ["tools", "automationScripts", "eventTriggers"];
  }

  /** The three uniqueness rules are one rule applied to three lists: each list's error
      depends only on that list. */
  lemma SameRuleForEachList(manifest: Json)
    ensures var r := BusinessRuleErrors(manifest);
            var tools := UniqueNameErrors(ToolRule, ListAt(manifest, "tools"));
            var scripts := UniqueNameErrors(ScriptRule, ListAt(manifest, "automationScripts"));
            var triggers := UniqueNameErrors(TriggerRule, ListAt(manifest, "eventTriggers"));
            r[..|tools| + |scripts| + |triggers|] == tools + scripts + triggers
  {
  }

  /** `validateExtensionManifest` / `validatePartnerManifest`: valid when the schema passes
      and no rule is broken; schema errors come before rule errors. */
  function ValidateManifest(schema: EngineOutcome, manifest: Json): (r: ValidationResult)
    requires manifest != JNull
    ensures r.errors == SchemaResult(schema).errors + BusinessRuleErrors(manifest)
  {
    var schemaResult := SchemaResult(schema);
    var rules := BusinessRuleErrors(manifest);
    ValidationResult(schemaResult.isValid && |rules| == 0, schemaResult.errors + rules)
  }

  /** A valid result carries no error, and a passing schema with no broken rule is valid. */
  lemma ValidIffPassedAndNoRuleErrors(schema: EngineOutcome, manifest: Json)
    requires manifest != JNull
    ensures ValidateManifest(schema, manifest).isValid <==> schema.passed && BusinessRuleErrors(manifest) == []
    ensures ValidateManifest(schema, manifest).isValid ==> ValidateManifest(schema, manifest).errors == []
  {
  }

  /** An invalid result can carry no error at all: the schema failed and the engine gave no
      error list. */
  lemma InvalidWithoutErrors()
    ensures var r := ValidateManifest(EngineOutcome(false, None), JObj(map[]));
            !r.isValid && r.errors == []
  {
    assert BusinessRuleErrors(JObj(map[])) == [];
  }

  /** Two tools with the same name break the tool rule, and the message names it once. */
  lemma DuplicateToolExample(tool: Json, name: string)
    requires Prop(tool, "name") == Some(JStr(name)) && name != ""
    ensures UniqueNameErrors(ToolRule, [tool, tool]) == [DuplicateError(ToolRule, [tool, tool], [JStr(name)])]
    ensures DuplicateError(ToolRule, [tool, tool], [JStr(name)]).message == "Duplicate tool names found: " + name
  {
    var x := JStr(name);
    NamesOfPair(tool, x);
    DuplicatesOfPair(x);
    assert JoinValues([x]) == name;
    var e := DuplicateError(ToolRule, [tool, tool], [x]);
    assert e.message == "Duplicate " + ToolRule.noun + " names found: " + name;
    ToolMessagePrefix();
  }

  lemma ToolMessagePrefix()
    ensures "Duplicate " + ToolRule.noun + " names found: " == "Duplicate tool names found: "
  {
  }

  lemma NamesOfPair(tool: Json, x: Json)
    requires Prop(tool, "name") == Some(x) && Truthy(x)
    ensures NameValues([tool, tool]) == [x, x]
  {
    assert [tool, tool][1..] == [tool];
    assert [tool][1..] == [];
  }

  lemma DuplicatesOfPair(x: Json)
    requires IsPrimitive(x)
    ensures Duplicates([x, x]) == [x] && Unique([x]) == [x]
  {
    assert [x, x][..1] == [x];
    assert [x][..0] == [];
    assert !RepeatsEarlier([x], 0);
    assert Duplicates([x]) == Duplicates([]);
    assert RepeatsEarlier([x, x], 1);
    assert Duplicates([x, x]) == Duplicates([x]) + [x];
  }

  // ---- field schema lookup ----

  /** One step of `extractFieldSchema`: the keywords "definitions", "properties" and
      "items" enter that part of the schema; any other part is looked up under
      `properties`, then `definitions`, then on the schema itself. Only truthy parts are
      entered; nothing found ends the walk. */
  function Step(current: Json, part: string): (r: Option<Json>)
    ensures r.Some? ==> Truthy(r.value)
  {
    var definitions := Prop(current, "definitions");
    var properties := Prop(current, "properties");
    var items := Prop(current, "items");
    if part == "definitions" && TruthyOpt(definitions) then definitions
    else if part == "properties" && TruthyOpt(properties) then properties
    else if part == "items" && TruthyOpt(items) then items
    else if TruthyOpt(properties) && TruthyOpt(Prop(properties.value, part)) then Prop(properties.value, part)
    else if TruthyOpt(definitions) && TruthyOpt(Prop(definitions.value, part)) then Prop(definitions.value, part)
    else if TruthyOpt(Prop(current, part)) then Prop(current, part)
    else None
  }

  /** The walk along the parts of a path. */
  function Walk(current: Json, parts: seq<string>): Option<Json>
    decreases |parts|
  {
    if parts == [] then Some(current)
    else
      var next := Step(current, parts[0]);
      if next.None? then None else Walk(next.value, parts[1..])
  }

  /** `extractFieldSchema`: the loop over the path's '.'-separated parts. A `null` schema
      would throw on the first property access. */
  method ExtractFieldSchema(fieldPath: string, schema: Json) returns (r: Option<Json>)
    requires schema != JNull
    ensures r == Walk(schema, Split(fieldPath, '.'))
  {
    var parts := Split(fieldPath, '.');
    var current := schema;
    var i := 0;
    while i < |parts|
      invariant 0 <= i <= |parts|
      invariant Walk(schema, parts) == Walk(current, parts[i..])
    {
      var next := Step(current, parts[i]);
      assert parts[i..][1..] == parts[i + 1..];
      if next.None? {
        return None;
      }
      current := next.value;
      i := i + 1;
    }
    return Some(current);
  }

  /** Walking a joined path is walking the first part, then the rest. */
  lemma {:induction false} WalkAppend(current: Json, p: seq<string>, q: seq<string>)
    ensures Walk(current, p + q) == if Walk(current, p).None? then None else Walk(Walk(current, p).value, q)
    decreases |p|
  {
    if p != [] {
      assert (p + q)[0] == p[0];
      assert (p + q)[1..] == p[1..] + q;
      var next := Step(current, p[0]);
      if next.Some? {
        WalkAppend(next.value, p[1..], q);
        assert Walk(current, p) == Walk(next.value, p[1..]);
        assert Walk(current, p + q) == Walk(next.value, p[1..] + q);
      } else {
        assert Walk(current, p) == None;
        assert Walk(current, p + q) == None;
      }
    } else {
      assert p + q == q;
    }
  }

  /** The walk gives up at the first part that is not found: whatever follows it. */
  lemma StopsAtMissingPart(current: Json, p: seq<string>, part: string, q: seq<string>)
    requires Walk(current, p).Some? && Step(Walk(current, p).value, part).None?
    ensures Walk(current, p + [part] + q) == None
  {
    WalkAppend(current, p, [part] + q);
    assert p + [part] + q == p + ([part] + q);
  }

  /** A non-empty walk that succeeds ends on a truthy value. */
  lemma {:induction false} WalkEndsTruthy(current: Json, parts: seq<string>)
    requires parts != [] && Walk(current, parts).Some?
    ensures Truthy(Walk(current, parts).value)
    decreases |parts|
  {
    var next := Step(current, parts[0]);
    if parts[1..] != [] {
      WalkEndsTruthy(next.value, parts[1..]);
    }
  }

  /** "properties.name" in a schema with a `properties` object holding `name`. */
  lemma PropertiesPathExample(nameSchema: Json)
    requires Truthy(nameSchema)
    ensures var schema := JObj(map["properties" := JObj(map["name" := nameSchema])]);
            Walk(schema, ["properties", "name"]) == Some(nameSchema)
  {
    var schema := JObj(map["properties" := JObj(map["name" := nameSchema])]);
    assert Step(schema, "properties") == Some(JObj(map["name" := nameSchema]));
    assert ["properties", "name"][1..] == ["name"];
    assert Step(JObj(map["name" := nameSchema]), "name") == Some(nameSchema);
  }

  // ---- display names ----

  /** The ten field names `getFieldDisplayName` knows. */
  const FieldNames: map<string, string> := map[
    "publisherId" := "Publisher ID",
    "publisherName" := "Publisher Name",
    "websiteUrl" := "Website URL",
    "privacyPolicyUrl" := "Privacy Policy URL",
    "supportUrl" := "Support URL",
    "contactEmail" := "Contact Email",
    "offerId" := "Offer ID",
    "defaultLocale" := "Default Locale",
    "supportedLocales" := "Supported Locales",
    "regions" := "Regions"
  ]

  /** The members every object literal inherits from `Object.prototype`; all are truthy. */
  const InheritedMembers: set<string> := {
    "constructor", "hasOwnProperty", "isPrototypeOf", "propertyIsEnumerable", "toString",
    "toLocaleString", "valueOf", "__proto__", "__defineGetter__", "__defineSetter__",
    "__lookupGetter__", "__lookupSetter__"
  }

  /** What `fieldNames[path] || path` evaluates to: a string, or an inherited member (a
      function, or the prototype object itself). */
  datatype DisplayName = Text(text: string) | Inherited(member: string)

  /** `getFieldDisplayName` as written: the lookup on an object literal also finds the
      inherited members. */
  function FieldDisplayNameAsWritten(path: string): (r: DisplayName)
    ensures path in FieldNames ==> r == Text(FieldNames[path])
    ensures path !in FieldNames && path in InheritedMembers ==> r == Inherited(path)
    ensures path !in FieldNames && path !in InheritedMembers ==> r == Text(path)
  {
    if path in FieldNames then Text(FieldNames[path])
    else if path in InheritedMembers then Inherited(path)
    else Text(path)
  }

  /** The path "constructor" yields the `Object` function, not a string. */
  lemma ConstructorIsNotAName()
    ensures FieldDisplayNameAsWritten("constructor") == Inherited("constructor")
  {
    assert "constructor" !in FieldNames;
  }

  /** `getFieldDisplayName` with an own-property lookup: the display name of a known
      field, the path itself otherwise. */
  function FieldDisplayName(path: string): (r: string)
    ensures path in FieldNames ==> r == FieldNames[path]
    ensures path !in FieldNames ==> r == path
  {
    if path in FieldNames then FieldNames[path] else path
  }

  /** The corrected lookup agrees with the written one wherever the written one gives a
      string, and always gives a string. */
  lemma DisplayNameAgrees(path: string)
    ensures FieldDisplayNameAsWritten(path).Text? ==> FieldDisplayNameAsWritten(path).text == FieldDisplayName(path)
    ensures FieldDisplayNameAsWritten(path).Inherited? <==> path !in FieldNames && path in InheritedMembers
  {
  }

  /** Display names are never empty: a known field has a non-empty name and an unknown
      path is kept. */
  lemma DisplayNameOfKnown(path: string)
    requires path in FieldNames
    ensures FieldDisplayName(path) != "" && FieldDisplayName(path) != path
  {
  }
}
