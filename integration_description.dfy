/** The manifest description builder of the partner integration CLI: a raw integration
    name is turned into an upper-case phrase ending in " INTEGRATION", followed by a fixed
    sentence tail. */
module IntegrationDescription {
  import opened Text

  const Fallback := "PARTNER INTEGRATION"
  const IntegrationSuffix := " INTEGRATION"
  const DescriptionSuffix := " for Dragon Copilot healthcare data processing."

  predicate IsDashOrUnderscore(c: char) { c == '-' || c == '_' }

  /** The characters that carry a name's words: neither '-', '_' nor white space. */
  predicate IsNameChar(c: char) { !IsDashOrUnderscore(c) && !IsJsWhitespace(c) }

  /** A name as the source's own tests spell it, and its sanitized form. */
  const ExampleRawName := "my-app"
  const ExampleSanitizedName := "MY APP"

  /** `sanitizeName`: a missing or blank name gives the fallback; otherwise runs of '-' or
      '_' become one space, runs of white space become one space, the ends are trimmed and
      the rest is upper-cased (an empty remainder gives the fallback). */
  function SanitizeName(rawName: Option<string>): (r: string)
    ensures r != []
    ensures rawName.None? || IsBlank(rawName.value) ==> r == Fallback
  {
    if rawName.None? || IsBlank(rawName.value) then Fallback
    else
      var spaced := Trim(ReplaceRuns(ReplaceRuns(rawName.value, IsDashOrUnderscore, ' '), IsJsWhitespace, ' '));
      if spaced == [] then Fallback else Upper(spaced)
  }

  /** `ensureIntegrationSuffix`. */
  function EnsureIntegrationSuffix(upperCasedName: string): (r: string)
    ensures EndsWith(r, IntegrationSuffix)
    ensures EndsWith(upperCasedName, IntegrationSuffix) ==> r == upperCasedName
    ensures !EndsWith(upperCasedName, IntegrationSuffix) ==> r == upperCasedName + IntegrationSuffix
  {
    if EndsWith(upperCasedName, IntegrationSuffix) then upperCasedName
    else
      var r := upperCasedName + IntegrationSuffix;
      assert r[|r| - |IntegrationSuffix|..] == IntegrationSuffix;
      r
  }

  /** `buildIntegrationDescription`. */
  function BuildIntegrationDescription(rawName: Option<string>): (r: string)
    ensures r == EnsureIntegrationSuffix(SanitizeName(rawName)) + DescriptionSuffix
    ensures EndsWith(r, DescriptionSuffix)
    ensures EndsWith(r[..|r| - |DescriptionSuffix|], IntegrationSuffix)
  {
    var named := EnsureIntegrationSuffix(SanitizeName(rawName));
    assert (named + DescriptionSuffix)[..|named|] == named;
    assert (named + DescriptionSuffix)[|named|..] == DescriptionSuffix;
    named + DescriptionSuffix
  }

  /** A missing or blank name gives the fixed fallback description. */
  lemma BlankNameDescription(rawName: Option<string>)
    requires rawName.None? || IsBlank(rawName.value)
    ensures BuildIntegrationDescription(rawName) == Fallback + DescriptionSuffix
  {
    assert Fallback[|Fallback| - |IntegrationSuffix|..] == IntegrationSuffix;
    assert EnsureIntegrationSuffix(Fallback) == Fallback;
  }

  lemma EndsWithAppend(u: string, suffix: string, tail: string)
    requires EndsWith(u, suffix)
    ensures EndsWith(u + tail, suffix + tail)
  {
    var d := u + tail;
    assert d[|d| - |suffix + tail|..] == u[|u| - |suffix|..] + tail;
  }

  /** Every description ends with " INTEGRATION" and the fixed sentence tail. */
  lemma DescriptionTail(rawName: Option<string>)
    ensures EndsWith(BuildIntegrationDescription(rawName), IntegrationSuffix + DescriptionSuffix)
  {
    var u := EnsureIntegrationSuffix(SanitizeName(rawName));
    EndsWithAppend(u, IntegrationSuffix, DescriptionSuffix);
  }

  /** The shape of a sanitized name: no '-' or '_', no lower-case ASCII letter, every white
      space character is a single ' ' between two other characters. */
  predicate Sanitized(n: string) {
    && n != []
    && (forall i :: 0 <= i < |n| ==> !IsDashOrUnderscore(n[i]) && !IsAsciiLower(n[i]))
    && !IsJsWhitespace(n[0]) && !IsJsWhitespace(n[|n| - 1])
    && RunsCollapsed(n, IsJsWhitespace, ' ')
  }

  /** Collapsing white space after replacing separators leaves no separator and only single
      ' ' characters as white space. */
  lemma CollapsedShape(raw: string)
    ensures var b := ReplaceRuns(ReplaceRuns(raw, IsDashOrUnderscore, ' '), IsJsWhitespace, ' ');
            && (forall k :: 0 <= k < |b| ==> !IsDashOrUnderscore(b[k]))
            && RunsCollapsed(b, IsJsWhitespace, ' ')
  {
    var a := ReplaceRuns(raw, IsDashOrUnderscore, ' ');
    var b := ReplaceRuns(a, IsJsWhitespace, ' ');
    ReplaceRunsCollapses(a, IsJsWhitespace, ' ');
    forall k | 0 <= k < |b| ensures !IsDashOrUnderscore(b[k]) {
      assert b[k] in b;
      if b[k] != ' ' {
        assert b[k] in a;
      }
    }
  }

  /** Trimming a collapsed string keeps it collapsed, free of separators, and gives ends that
      are not white space. */
  lemma TrimmedShape(b: string)
    requires forall k :: 0 <= k < |b| ==> !IsDashOrUnderscore(b[k])
    requires RunsCollapsed(b, IsJsWhitespace, ' ')
    requires Trim(b) != []
    ensures var t := Trim(b);
            && (forall k :: 0 <= k < |t| ==> !IsDashOrUnderscore(t[k]))
            && !IsJsWhitespace(t[0]) && !IsJsWhitespace(t[|t| - 1])
            && RunsCollapsed(t, IsJsWhitespace, ' ')
  {
    TrimEnds(b);
    TrimMiddle(b);
    var i, j :| 0 <= i <= j <= |b| && Trim(b) == b[i..j] && AllWhitespace(b[..i]) && AllWhitespace(b[j..]);
    CollapsedSlice(b, i, j, IsJsWhitespace, ' ');
    SliceFreeOfSeparators(b, i, j);
  }

  lemma SliceFreeOfSeparators(b: string, i: nat, j: nat)
    requires i <= j <= |b|
    requires forall k :: 0 <= k < |b| ==> !IsDashOrUnderscore(b[k])
    ensures forall k :: 0 <= k < j - i ==> !IsDashOrUnderscore(b[i..j][k])
  {
    forall k | 0 <= k < j - i ensures !IsDashOrUnderscore(b[i..j][k]) {
      assert b[i..j][k] == b[i + k];
    }
  }

  /** Upper-casing changes no white space and removes every ASCII lower-case letter. */
  lemma UpperShape(t: string)
    requires forall k :: 0 <= k < |t| ==> !IsDashOrUnderscore(t[k])
    requires t != [] && !IsJsWhitespace(t[0]) && !IsJsWhitespace(t[|t| - 1])
    requires RunsCollapsed(t, IsJsWhitespace, ' ')
    ensures Sanitized(Upper(t))
  {
    var u := Upper(t);
    forall k | 0 <= k < |u| ensures IsJsWhitespace(u[k]) <==> IsJsWhitespace(t[k]) {
      assert u[k] == UpperChar(t[k]);
    }
  }

  /** Every sanitized name, the fallback included, has that shape. */
  lemma SanitizeNameShape(rawName: Option<string>)
    ensures Sanitized(SanitizeName(rawName))
  {
    FallbackSanitized();
    if rawName.Some? && !IsBlank(rawName.value) {
      SpacedShape(rawName.value);
    }
  }

  /** The upper-cased, trimmed, collapsed name has the sanitized shape when not empty. */
  lemma SpacedShape(raw: string)
    ensures var t := Trim(ReplaceRuns(ReplaceRuns(raw, IsDashOrUnderscore, ' '), IsJsWhitespace, ' '));
            t != [] ==> Sanitized(Upper(t))
  {
    var b := ReplaceRuns(ReplaceRuns(raw, IsDashOrUnderscore, ' '), IsJsWhitespace, ' ');
    if Trim(b) != [] {
      CollapsedShape(raw);
      TrimmedShape(b);
      UpperShape(Trim(b));
    }
  }

  lemma FallbackSanitized()
    ensures Sanitized(Fallback)
  {
    var n := Fallback;
    assert forall i :: 0 <= i < |n| && i != 7 ==> IsAsciiUpper(n[i]);
    forall i | 0 <= i < |n| && IsJsWhitespace(n[i])
      ensures n[i] == ' ' && (i + 1 < |n| ==> !IsJsWhitespace(n[i + 1]))
    {
      assert i == 7;
    }
  }

  /** A name made only of '-', '_' and white space (and not blank) still gives the fallback. */
  lemma SeparatorsOnlyFallBack(raw: string)
    requires forall i :: 0 <= i < |raw| ==> IsDashOrUnderscore(raw[i]) || IsJsWhitespace(raw[i])
    ensures SanitizeName(Some(raw)) == Fallback
  {
    if !IsBlank(raw) {
      var a := ReplaceRuns(raw, IsDashOrUnderscore, ' ');
      var b := ReplaceRuns(a, IsJsWhitespace, ' ');
      forall c | c in a ensures IsJsWhitespace(c) {
        if c != ' ' {
          var i :| 0 <= i < |raw| && raw[i] == c;
        }
      }
      forall k | 0 <= k < |b| ensures IsJsWhitespace(b[k]) {
        assert b[k] in b;
      }
      BlankIffAllWhitespace(b);
    }
  }

  /** A name that already has the sanitized shape comes back unchanged. */
  lemma SanitizedIsFixed(n: string)
    requires Sanitized(n)
    ensures SanitizeName(Some(n)) == n
  {
    assert RunsCollapsed(n, IsDashOrUnderscore, ' ');
    ReplaceRunsOfCollapsed(n, IsDashOrUnderscore, ' ');
    ReplaceRunsOfCollapsed(n, IsJsWhitespace, ' ');
    TrimOfTrimmed(n);
    UpperOfUpper(n);
  }

  lemma UpperOfUpper(n: string)
    requires forall i :: 0 <= i < |n| ==> !IsAsciiLower(n[i])
    ensures Upper(n) == n
  {
  }

  /** Sanitizing is idempotent. */
  lemma SanitizeNameIdempotent(rawName: Option<string>)
    ensures SanitizeName(Some(SanitizeName(rawName))) == SanitizeName(rawName)
  {
    SanitizeNameShape(rawName);
    SanitizedIsFixed(SanitizeName(rawName));
  }

  /** What a name keeps: a name with no character besides '-', '_' and white space gives
      the fallback; any other name gives exactly its remaining characters, upper-cased and
      in their order, with only single spaces put between them. */
  lemma SanitizeNameContent(raw: string)
    ensures Keep(raw, IsNameChar) == [] ==> SanitizeName(Some(raw)) == Fallback
    ensures Keep(raw, IsNameChar) != [] ==>
              Keep(SanitizeName(Some(raw)), IsNameChar) == Upper(Keep(raw, IsNameChar))
  {
    if IsBlank(raw) {
      BlankIffAllWhitespace(raw);
      KeepNone(raw, IsNameChar);
    } else {
      var t := Trim(ReplaceRuns(ReplaceRuns(raw, IsDashOrUnderscore, ' '), IsJsWhitespace, ' '));
      SpacedKeeps(raw);
      if t != [] {
        SpacedHead(raw);
        UpperKeep(t);
      }
    }
  }

  /** The two replacements and the trim keep every name character, in order. */
  lemma SpacedKeeps(raw: string)
    ensures var t := Trim(ReplaceRuns(ReplaceRuns(raw, IsDashOrUnderscore, ' '), IsJsWhitespace, ' '));
            Keep(t, IsNameChar) == Keep(raw, IsNameChar)
  {
    var a := ReplaceRuns(raw, IsDashOrUnderscore, ' ');
    var b := ReplaceRuns(a, IsJsWhitespace, ' ');
    ReplaceRunsKeeps(raw, IsDashOrUnderscore, ' ', IsNameChar);
    ReplaceRunsKeeps(a, IsJsWhitespace, ' ', IsNameChar);
    KeepTrim(b, IsNameChar);
  }

  /** A non-empty trimmed text starts with a name character, so it keeps some. */
  lemma SpacedHead(raw: string)
    ensures var t := Trim(ReplaceRuns(ReplaceRuns(raw, IsDashOrUnderscore, ' '), IsJsWhitespace, ' '));
            t != [] ==> Keep(t, IsNameChar) != []
  {
    var t := Trim(ReplaceRuns(ReplaceRuns(raw, IsDashOrUnderscore, ' '), IsJsWhitespace, ' '));
    if t != [] {
      SpacedFirst(raw);
      KeepHead(t, IsNameChar);
    }
  }

  lemma SpacedFirst(raw: string)
    ensures var t := Trim(ReplaceRuns(ReplaceRuns(raw, IsDashOrUnderscore, ' '), IsJsWhitespace, ' '));
            t != [] ==> IsNameChar(t[0])
  {
    var b := ReplaceRuns(ReplaceRuns(raw, IsDashOrUnderscore, ' '), IsJsWhitespace, ' ');
    if Trim(b) != [] {
      CollapsedShape(raw);
      TrimmedShape(b);
    }
  }

  /** Upper-casing commutes with keeping the name characters. */
  lemma {:induction false} UpperKeep(t: string)
    ensures Keep(Upper(t), IsNameChar) == Upper(Keep(t, IsNameChar))
    decreases |t|
  {
    if t != [] {
      var u := Upper(t);
      assert u[0] == UpperChar(t[0]);
      assert IsNameChar(u[0]) <==> IsNameChar(t[0]);
      assert u[1..] == Upper(t[1..]);
      UpperKeep(t[1..]);
      var k := Keep(t[1..], IsNameChar);
      if IsNameChar(t[0]) {
        assert Upper([t[0]] + k) == [u[0]] + Upper(k);
      }
    }
  }

  /** Two words of name characters joined by one '-' become the two words upper-cased and
      joined by one space. */
  lemma DashedWords(w1: string, w2: string)
    requires w1 != [] && w2 != []
    requires forall i :: 0 <= i < |w1| ==> IsNameChar(w1[i])
    requires forall i :: 0 <= i < |w2| ==> IsNameChar(w2[i])
    ensures SanitizeName(Some(w1 + "-" + w2)) == Upper(w1) + " " + Upper(w2)
  {
    var raw := w1 + "-" + w2;
    var a := w1 + " " + w2;
    assert IsNameChar(w1[0]) && IsNameChar(w2[|w2| - 1]);
    JoinedEnds(w1, '-', w2);
    JoinedEnds(w1, ' ', w2);
    DashedSpaced(w1, w2);
    SanitizeSpaced(raw, a);
    UpperJoin(w1, w2);
  }

  /** A name whose ends are not white space and whose replacements give a text whose ends
      are not white space is that text upper-cased. */
  lemma SanitizeSpaced(raw: string, a: string)
    requires raw != [] && !IsJsWhitespace(raw[0]) && !IsJsWhitespace(raw[|raw| - 1])
    requires a != [] && !IsJsWhitespace(a[0]) && !IsJsWhitespace(a[|a| - 1])
    requires ReplaceRuns(ReplaceRuns(raw, IsDashOrUnderscore, ' '), IsJsWhitespace, ' ') == a
    ensures SanitizeName(Some(raw)) == Upper(a)
  {
    TrimOfTrimmed(raw);
    TrimOfTrimmed(a);
  }

  /** The replacements turn the dash into one space. */
  lemma DashedSpaced(w1: string, w2: string)
    requires forall i :: 0 <= i < |w1| ==> IsNameChar(w1[i])
    requires forall i :: 0 <= i < |w2| ==> IsNameChar(w2[i])
    ensures ReplaceRuns(ReplaceRuns(w1 + "-" + w2, IsDashOrUnderscore, ' '), IsJsWhitespace, ' ') == w1 + " " + w2
  {
    SeparatorToSpace(w1, '-', w2, IsDashOrUnderscore);
    SeparatorToSpace(w1, ' ', w2, IsJsWhitespace);
  }

  /** One separator of a class between two words becomes one space. */
  lemma SeparatorToSpace(w1: string, sep: char, w2: string, inClass: char -> bool)
    requires inClass(sep)
    requires forall c :: inClass(c) ==> !IsNameChar(c)
    requires forall i :: 0 <= i < |w1| ==> IsNameChar(w1[i])
    requires forall i :: 0 <= i < |w2| ==> IsNameChar(w2[i])
    ensures ReplaceRuns(w1 + [sep] + w2, inClass, ' ') == w1 + " " + w2
  {
    ReplaceRunsOneSeparator(w1, sep, w2, inClass, ' ');
  }

  lemma UpperJoin(w1: string, w2: string)
    ensures Upper(w1 + " " + w2) == Upper(w1) + " " + Upper(w2)
  {
    var l := w1 + " " + w2;
    var r := Upper(w1) + " " + Upper(w2);
    forall k | 0 <= k < |l| ensures Upper(l)[k] == r[k] {
      if k < |w1| {
        assert l[k] == w1[k];
      } else if k > |w1| {
        assert l[k] == w2[k - |w1| - 1];
      }
    }
  }

  /** "my-app" is sanitized to "MY APP". */
  lemma SanitizeNameExample(raw: string)
    requires raw == ExampleRawName
    ensures SanitizeName(Some(raw)) == ExampleSanitizedName
  {
    var w1, w2 := raw[..2], raw[3..];
    assert raw == w1 + "-" + w2;
    UpperExample(w1, w2);
    DashedWords(w1, w2);
  }

  lemma UpperExample(w1: string, w2: string)
    requires w1 == "my" && w2 == "app"
    ensures Upper(w1) + " " + Upper(w2) == ExampleSanitizedName
  {
    var u := Upper(w1) + " " + Upper(w2);
    assert u[0] == 'M' && u[1] == 'Y' && u[2] == ' ';
    assert u[3] == 'A' && u[4] == 'P' && u[5] == 'P';
  }
}
