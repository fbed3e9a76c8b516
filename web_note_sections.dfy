/** The note sections of the browser manifest builder: the same ten sections in the same
    order as the command-line tool, an ordering step that puts a record of section values
    into that order, and the two fixed tables the builder offers ("all" sections with their
    defaults, and "optional" sections that are all empty). */
module WebNoteSections {
  import opened Text
  import opened NoteSections

  /** The value a record holds under `key`, if the record exists and holds one. */
  function Lookup(source: Option<map<string, NoteValue>>, key: string): (r: Option<NoteValue>)
    ensures r.Some? <==> source.Some? && key in source.value
    ensures r.Some? ==> r.value == source.value[key]
  {
    if source.Some? && key in source.value then Some(source.value[key]) else None
  }

  /** A string value the ordering step leaves alone: trimmed and not empty. */
  predicate TrimmedText(s: string) {
    s != [] && Trim(s) == s
  }

  lemma PlaceholderTrimmed()
    ensures TrimmedText(EmptyNotePlaceholder)
  {
    var s := EmptyNotePlaceholder;
    assert !IsJsWhitespace(s[0]) && !IsJsWhitespace(s[|s| - 1]);
    TrimStartOfTrimmed(s);
  }

  /** `orderNoteSections` on one section: an array is copied, the placeholder is kept, any
      other string is trimmed (and becomes the placeholder when nothing is left), and an
      absent or `null` value becomes the placeholder. */
  function OrderValue(raw: Option<NoteValue>): (r: NoteValue)
    ensures r.Items? <==> raw.Some? && raw.value.Items?
    ensures r.Items? ==> r == raw.value
    ensures r.Text? ==> TrimmedText(r.text)
    ensures r == Text(EmptyNotePlaceholder) <==>
              match raw
              case None => true
              case Some(Null) => true
              case Some(Text(s)) => Trim(s) == [] || Trim(s) == EmptyNotePlaceholder
              case Some(Items(_)) => false
    ensures r.Text? && r != Text(EmptyNotePlaceholder) ==> raw.Some? && raw.value.Text? && r.text == Trim(raw.value.text)
    ensures !r.Null?
  {
    PlaceholderTrimmed();
    match raw
    case Some(Items(xs)) => Items(xs)
    case Some(Text(s)) =>
      if s == EmptyNotePlaceholder then Text(EmptyNotePlaceholder)
      else
        var trimmed := Trim(s);
        TrimIdempotent(s);
        if trimmed == [] then Text(EmptyNotePlaceholder) else Text(trimmed)
    case _ => Text(EmptyNotePlaceholder)
  }

  /** `orderNoteSections`: one entry per section, in section order, holding the ordered
      form of what the record holds under that section. */
  function OrderNoteSections(source: Option<map<string, NoteValue>>): (r: seq<Section>)
    ensures |r| == |NoteSectionOrder|
    ensures forall i :: 0 <= i < |r| ==> r[i].key == NoteSectionOrder[i]
  {
    seq(|NoteSectionOrder|, i requires 0 <= i < |NoteSectionOrder| =>
      Section(NoteSectionOrder[i], OrderValue(Lookup(source, NoteSectionOrder[i]))))
  }

  /** An ordered value is ordered to itself. */
  lemma OrderValueStable(raw: Option<NoteValue>)
    ensures OrderValue(Some(OrderValue(raw))) == OrderValue(raw)
  {
    var v := OrderValue(raw);
    if v.Text? {
      TrimIdempotent(v.text);
    }
  }

  /** Ordering the ordered record again changes nothing. */
  lemma OrderIdempotent(source: Option<map<string, NoteValue>>)
    ensures OrderNoteSections(Some(AsRecord(OrderNoteSections(source)))) == OrderNoteSections(source)
  {
    OrderedValuesFixed(source);
    ReorderFixed(OrderNoteSections(source));
  }

  lemma OrderedValuesFixed(source: Option<map<string, NoteValue>>)
    ensures var r := OrderNoteSections(source);
            forall i :: 0 <= i < |r| ==> OrderValue(Some(r[i].value)) == r[i].value
  {
    var r := OrderNoteSections(source);
    forall i | 0 <= i < |r| ensures OrderValue(Some(r[i].value)) == r[i].value {
      OrderedValueFixedAt(source, i);
    }
  }

  lemma OrderedValueFixedAt(source: Option<map<string, NoteValue>>, i: nat)
    requires i < |NoteSectionOrder|
    ensures OrderValue(Some(OrderNoteSections(source)[i].value)) == OrderNoteSections(source)[i].value
  {
    var raw := Lookup(source, NoteSectionOrder[i]);
    assert OrderNoteSections(source)[i].value == OrderValue(raw);
    OrderValueStable(raw);
  }

  /** Entries in section order whose values are in ordered form are read back unchanged. */
  lemma ReorderFixed(r: seq<Section>)
    requires |r| == |NoteSectionOrder|
    requires forall i :: 0 <= i < |r| ==> r[i].key == NoteSectionOrder[i] && OrderValue(Some(r[i].value)) == r[i].value
    ensures OrderNoteSections(Some(AsRecord(r))) == r
  {
    forall i | 0 <= i < |r| ensures OrderNoteSections(Some(AsRecord(r)))[i] == r[i] {
      ReorderAt(r, i);
    }
  }

  lemma ReorderAt(r: seq<Section>, i: nat)
    requires |r| == |NoteSectionOrder| && i < |r|
    requires forall i :: 0 <= i < |r| ==> r[i].key == NoteSectionOrder[i] && OrderValue(Some(r[i].value)) == r[i].value
    ensures OrderNoteSections(Some(AsRecord(r)))[i] == r[i]
  {
    SectionOrderDistinct();
    AsRecordLookup(r, i);
  }

  /** Entries of the record whose key is not a section have no effect on the result. */
  lemma OrderIgnoresOtherKeys(m: map<string, NoteValue>, key: string, v: NoteValue)
    requires key !in NoteSectionOrder
    ensures OrderNoteSections(Some(m[key := v])) == OrderNoteSections(Some(m))
  {
    var a, b := OrderNoteSections(Some(m[key := v])), OrderNoteSections(Some(m));
    forall i | 0 <= i < |a| ensures a[i] == b[i] {
      assert NoteSectionOrder[i] in NoteSectionOrder;
    }
  }

  /** Unlike the command-line tool's cleansing step, ordering keeps an empty array. */
  lemma EmptyListKept()
    ensures OrderValue(Some(Items([]))) == Items([])
    ensures CleanseValue(Some(Items([]))) == Text(EmptyNotePlaceholder)
  {
  }

  /** `createEmptyNoteSections`: every section holds the placeholder. */
  function CreateEmptyNoteSections(): (m: map<string, NoteValue>)
    ensures forall k :: k in m <==> k in NoteSectionOrder
    ensures forall k :: k in m ==> m[k] == Text(EmptyNotePlaceholder)
  {
    map k | k in NoteSectionOrder :: Text(EmptyNotePlaceholder)
  }

  /** The record `DEFAULT_NOTE_SECTIONS` is built from: the empty sections with five of
      them overridden. */
  function DefaultSource(): map<string, NoteValue> {
    CreateEmptyNoteSections()[
      "hpi" := Items(["hpi", "chief-complaint"])][
      "assessment" := Items(["assessment", "plan"])][
      "physical-exam" := Text("physical-exam")][
      "procedures" := Text("procedures")][
      "results" := Text("results")]
  }

  /** `DEFAULT_NOTE_SECTIONS`. */
  function DefaultWebNoteSections(): seq<Section> {
    OrderNoteSections(Some(DefaultSource()))
  }

  /** `OPTIONAL_NOTE_SECTIONS`. */
  function OptionalWebNoteSections(): seq<Section> {
    OrderNoteSections(Some(CreateEmptyNoteSections()))
  }

  lemma DefaultSourceIsDefaults()
    ensures DefaultSource() == DefaultNoteSectionValues
  {
    var src := DefaultSource();
    DefaultsCoverOrder();
    assert src.Keys == DefaultNoteSectionValues.Keys;
  }

  /** The browser builder's default table holds the same values as the command-line
      tool's defaults. */
  lemma WebDefaultsAgree()
    ensures |DefaultWebNoteSections()| == |NoteSectionOrder|
    ensures forall i :: 0 <= i < |NoteSectionOrder| ==>
              DefaultWebNoteSections()[i] == Section(NoteSectionOrder[i], DefaultNoteSectionValues[NoteSectionOrder[i]])
  {
    DefaultSourceIsDefaults();
    DefaultsAllOrdered();
  }

  lemma DefaultsAllOrdered()
    ensures forall k :: k in NoteSectionOrder ==>
              k in DefaultNoteSectionValues && OrderValue(Some(DefaultNoteSectionValues[k])) == DefaultNoteSectionValues[k]
  {
    DefaultsCoverOrder();
    forall k | k in NoteSectionOrder ensures OrderValue(Some(DefaultNoteSectionValues[k])) == DefaultNoteSectionValues[k] {
      DefaultOrdered(k);
    }
  }

  lemma DefaultOrdered(k: string)
    requires k in DefaultNoteSectionValues
    ensures OrderValue(Some(DefaultNoteSectionValues[k])) == DefaultNoteSectionValues[k]
  {
    var v := DefaultNoteSectionValues[k];
    assert !v.Null?;
    if v.Text? {
      DefaultsTrimmed(k);
    }
    OrderValueOfOrdered(v);
  }

  /** A value already in ordered form is kept. */
  lemma OrderValueOfOrdered(v: NoteValue)
    requires !v.Null? && (v.Text? ==> TrimmedText(v.text))
    ensures OrderValue(Some(v)) == v
  {
  }

  /** The optional table holds the placeholder in every section. */
  lemma OptionalAllEmpty()
    ensures |OptionalWebNoteSections()| == |NoteSectionOrder|
    ensures forall i :: 0 <= i < |NoteSectionOrder| ==>
              OptionalWebNoteSections()[i] == Section(NoteSectionOrder[i], Text(EmptyNotePlaceholder))
  {
  }
}
