/** The note sections of a connector manifest: ten named sections in a fixed order, each
    holding a section name, a list of section names or the empty-note placeholder, with
    caller input cleaned up and missing or empty sections replaced by their defaults. */
module NoteSections {
  import opened Text

  /** A section value: a string, an array of strings, or `null`. */
  datatype NoteValue = Text(text: string) | Items(items: seq<string>) | Null

  /** One entry of the normalized record, in insertion order. */
  datatype Section = Section(key: string, value: NoteValue)

  const EmptyNotePlaceholder := "__NOTE_EMPTY__"

  const NoteSectionOrder: seq<string> := [
    "hpi", "chief-complaint", "past-medical-history", "assessment", "medications",
    "allergies", "review-of-systems", "physical-exam", "procedures", "results"
  ]

  /** The default value of every section. */
  const DefaultNoteSectionValues: map<string, NoteValue> := map[
    "hpi" := Items(["hpi", "chief-complaint"]),
    "chief-complaint" := Text(EmptyNotePlaceholder),
    "past-medical-history" := Text(EmptyNotePlaceholder),
    "assessment" := Items(["assessment", "plan"]),
    "medications" := Text(EmptyNotePlaceholder),
    "allergies" := Text(EmptyNotePlaceholder),
    "review-of-systems" := Text(EmptyNotePlaceholder),
    "physical-exam" := Text("physical-exam"),
    "procedures" := Text("procedures"),
    "results" := Text("results")
  ]

  lemma DefaultsCoverOrder()
    ensures forall k :: k in NoteSectionOrder <==> k in DefaultNoteSectionValues
    ensures |NoteSectionOrder| == 10
  {
  }

  /** `isPlaceholder`: a string that trims to the placeholder. */
  predicate IsPlaceholder(s: string) {
    Trim(s) == EmptyNotePlaceholder
  }

  /** Some element is truthy, i.e. a non-empty string (`value.filter(Boolean).length`). */
  predicate HasTruthyItem(items: seq<string>) {
    exists i :: 0 <= i < |items| && items[i] != []
  }

  /** `cleanseValue`: an absent, `null`, blank or placeholder value becomes the placeholder, a
      string is trimmed, and an array is kept when it holds a non-empty string. */
  function CleanseValue(value: Option<NoteValue>): (r: NoteValue)
    ensures r == Text(EmptyNotePlaceholder) <==>
              match value
              case None => true
              case Some(Null) => true
              case Some(Text(s)) => IsBlank(s) || IsPlaceholder(s)
              case Some(Items(xs)) => !HasTruthyItem(xs)
    ensures r.Text? && r != Text(EmptyNotePlaceholder) ==> value.Some? && value.value.Text? && r.text == Trim(value.value.text) && r.text != []
    ensures r.Items? ==> value == Some(r) && HasTruthyItem(r.items)
    ensures !r.Null?
  {
    match value
    case Some(Items(xs)) => if HasTruthyItem(xs) then Items(xs) else Text(EmptyNotePlaceholder)
    case Some(Text(s)) =>
      var trimmed := Trim(s);
      if trimmed == [] then Text(EmptyNotePlaceholder)
      else if IsPlaceholder(trimmed) then Text(EmptyNotePlaceholder)
      else TrimIdempotent(s); Text(trimmed)
    case _ => Text(EmptyNotePlaceholder)
  }

  /** The value `normalizeNoteSections` stores under one section: an array the caller gives
      with a non-empty string is kept as it is, and a string that is neither blank nor the
      placeholder is kept trimmed. */
  function NormalizedValue(input: Option<map<string, NoteValue>>, key: string): (v: NoteValue)
    requires key in DefaultNoteSectionValues
    ensures (input.Some? && key in input.value && input.value[key].Items? && HasTruthyItem(input.value[key].items))
            ==> v == input.value[key]
    ensures (input.Some? && key in input.value && input.value[key].Text?
             && !IsBlank(input.value[key].text) && !IsPlaceholder(input.value[key].text))
            ==> v == Text(Trim(input.value[key].text))
  {
    var source := if input.Some? && key in input.value then Some(input.value[key]) else None;
    var cleansed := CleanseValue(source);
    if cleansed == Text(EmptyNotePlaceholder) then DefaultNoteSectionValues[key]
    else if cleansed.Items? then
      if HasTruthyItem(cleansed.items) then Items(cleansed.items) else DefaultNoteSectionValues[key]
    else cleansed
  }

  /** `normalizeNoteSections`: one entry per section, in section order. */
  method NormalizeNoteSections(input: Option<map<string, NoteValue>>) returns (normalized: seq<Section>)
    ensures |normalized| == |NoteSectionOrder|
    ensures forall i :: 0 <= i < |normalized| ==>
              normalized[i] == Section(NoteSectionOrder[i], NormalizedValue(input, NoteSectionOrder[i]))
  {
    normalized := [];
    var n := 0;
    while n < |NoteSectionOrder|
      invariant 0 <= n <= |NoteSectionOrder|
      invariant |normalized| == n
      invariant forall i :: 0 <= i < n ==>
                  normalized[i] == Section(NoteSectionOrder[i], NormalizedValue(input, NoteSectionOrder[i]))
    {
      var key := NoteSectionOrder[n];
      var source := if input.Some? && key in input.value then Some(input.value[key]) else None;
      var cleansed := CleanseValue(source);
      var value;
      if cleansed == Text(EmptyNotePlaceholder) {
        value := DefaultNoteSectionValues[key];
      } else if cleansed.Items? {
        value := if HasTruthyItem(cleansed.items) then Items(cleansed.items) else DefaultNoteSectionValues[key];
      } else {
        value := cleansed;
      }
      normalized := normalized + [Section(key, value)];
      n := n + 1;
    }
  }

  /** The entries read back as a record. */
  function AsRecord(sections: seq<Section>): (m: map<string, NoteValue>)
    ensures forall k :: k in m <==> exists i :: 0 <= i < |sections| && sections[i].key == k
  {
    if sections == [] then map[]
    else AsRecord(sections[..|sections| - 1])[sections[|sections| - 1].key := sections[|sections| - 1].value]
  }

  /** What a normalized section holds: its default, a non-blank trimmed string other than
      the placeholder, or an array with a non-empty string that the caller supplied. */
  lemma NormalizedValueCases(input: Option<map<string, NoteValue>>, key: string)
    requires key in DefaultNoteSectionValues
    ensures var v := NormalizedValue(input, key);
            var given := input.Some? && key in input.value;
            || (v == DefaultNoteSectionValues[key] &&
                (!given || input.value[key].Null? ||
                 (input.value[key].Text? && (IsBlank(input.value[key].text) || IsPlaceholder(input.value[key].text))) ||
                 (input.value[key].Items? && !HasTruthyItem(input.value[key].items))))
            || (given && input.value[key].Text? && v == Text(Trim(input.value[key].text)) &&
                !IsBlank(input.value[key].text) && !IsPlaceholder(input.value[key].text))
            || (given && input.value[key].Items? && v == input.value[key] && HasTruthyItem(v.items))
  {
  }

  /** A normalized value is never `null` and never a blank string. */
  lemma NormalizedValueWellFormed(input: Option<map<string, NoteValue>>, key: string)
    requires key in DefaultNoteSectionValues
    ensures var v := NormalizedValue(input, key);
            && !v.Null?
            && (v.Text? ==> Trim(v.text) == v.text && v.text != [])
            && (v.Items? ==> HasTruthyItem(v.items))
  {
    var v := NormalizedValue(input, key);
    TrimIdempotentIfGiven(input, key);
    if v == DefaultNoteSectionValues[key] {
      assert DefaultNoteSectionValues[key].Items? ==> DefaultNoteSectionValues[key].items[0] != [];
      if v.Text? {
        DefaultsTrimmed(key);
      }
    }
  }

  lemma TrimIdempotentIfGiven(input: Option<map<string, NoteValue>>, key: string)
    ensures input.Some? && key in input.value && input.value[key].Text? ==>
              Trim(Trim(input.value[key].text)) == Trim(input.value[key].text)
  {
    if input.Some? && key in input.value && input.value[key].Text? {
      TrimIdempotent(input.value[key].text);
    }
  }

  /** The default strings have no surrounding white space. */
  lemma DefaultsTrimmed(key: string)
    requires key in DefaultNoteSectionValues && DefaultNoteSectionValues[key].Text?
    ensures Trim(DefaultNoteSectionValues[key].text) == DefaultNoteSectionValues[key].text
    ensures DefaultNoteSectionValues[key].text != []
  {
    var s := DefaultNoteSectionValues[key].text;
    assert s != [] && !IsJsWhitespace(s[0]) && !IsJsWhitespace(s[|s| - 1]);
    TrimStartOfTrimmed(s);
  }

  /** A well-formed value stored under its section is normalized to itself, provided it is
      the placeholder string only where that is the section's default. */
  lemma NormalizedValueStable(m: map<string, NoteValue>, key: string)
    requires key in DefaultNoteSectionValues && key in m
    requires var v := m[key];
             && !v.Null? && (v.Text? ==> Trim(v.text) == v.text && v.text != []) && (v.Items? ==> HasTruthyItem(v.items))
             && (v.Text? && IsPlaceholder(v.text) ==> v == DefaultNoteSectionValues[key])
    ensures NormalizedValue(Some(m), key) == m[key]
  {
  }

  /** A normalized value is the placeholder string only where that is the default. */
  lemma NormalizedPlaceholderIsDefault(input: Option<map<string, NoteValue>>, key: string)
    requires key in DefaultNoteSectionValues
    ensures var v := NormalizedValue(input, key);
            v.Text? && IsPlaceholder(v.text) ==> v == DefaultNoteSectionValues[key]
  {
    TrimIdempotentIfGiven(input, key);
  }

  lemma AsRecordLookup(sections: seq<Section>, i: nat)
    requires i < |sections|
    requires forall j, k :: 0 <= j < k < |sections| ==> sections[j].key != sections[k].key
    ensures sections[i].key in AsRecord(sections) && AsRecord(sections)[sections[i].key] == sections[i].value
    decreases |sections|
  {
    if i < |sections| - 1 {
      AsRecordLookup(sections[..|sections| - 1], i);
    }
  }

  lemma SectionOrderDistinct()
    ensures forall j, k :: 0 <= j < k < |NoteSectionOrder| ==> NoteSectionOrder[j] != NoteSectionOrder[k]
  {
  }

  /** Normalizing the normalized record again gives the same entries. */
  lemma NormalizeIdempotent(input: Option<map<string, NoteValue>>, normalized: seq<Section>)
    requires |normalized| == |NoteSectionOrder|
    requires forall i :: 0 <= i < |normalized| ==>
               normalized[i] == Section(NoteSectionOrder[i], NormalizedValue(input, NoteSectionOrder[i]))
    ensures forall i :: 0 <= i < |normalized| ==>
              NormalizedValue(Some(AsRecord(normalized)), NoteSectionOrder[i]) == normalized[i].value
  {
    SectionOrderDistinct();
    DefaultsCoverOrder();
    assert forall j, k :: 0 <= j < k < |normalized| ==> normalized[j].key != normalized[k].key;
    forall i | 0 <= i < |normalized|
      ensures NormalizedValue(Some(AsRecord(normalized)), NoteSectionOrder[i]) == normalized[i].value
    {
      var m := AsRecord(normalized);
      var key := NoteSectionOrder[i];
      AsRecordLookup(normalized, i);
      assert normalized[i].key == key;
      assert key in m && m[key] == NormalizedValue(input, key);
      RenormalizeOne(input, m, key);
    }
  }

  lemma RenormalizeOne(input: Option<map<string, NoteValue>>, m: map<string, NoteValue>, key: string)
    requires key in DefaultNoteSectionValues && key in m && m[key] == NormalizedValue(input, key)
    ensures NormalizedValue(Some(m), key) == m[key]
  {
    NormalizedValueWellFormed(input, key);
    NormalizedPlaceholderIsDefault(input, key);
    NormalizedValueStable(m, key);
  }

  /** The defaults are already normalized. */
  lemma DefaultsNormalized(key: string)
    requires key in DefaultNoteSectionValues
    ensures NormalizedValue(Some(DefaultNoteSectionValues), key) == DefaultNoteSectionValues[key]
  {
    var v := DefaultNoteSectionValues[key];
    if v.Text? {
      DefaultsTrimmed(key);
    }
    if v.Items? {
      assert v.items[0] != [];
    }
    NormalizedValueStable(DefaultNoteSectionValues, key);
  }

  /** `getDefaultNoteSections`: every section holds its default, in section order. */
  method GetDefaultNoteSections() returns (sections: seq<Section>)
    ensures |sections| == |NoteSectionOrder|
    ensures forall i :: 0 <= i < |sections| ==>
              sections[i] == Section(NoteSectionOrder[i], DefaultNoteSectionValues[NoteSectionOrder[i]])
  {
    sections := NormalizeNoteSections(Some(DefaultNoteSectionValues));
    forall i | 0 <= i < |sections|
      ensures sections[i] == Section(NoteSectionOrder[i], DefaultNoteSectionValues[NoteSectionOrder[i]])
    {
      DefaultsNormalized(NoteSectionOrder[i]);
    }
  }
}
