/** The clean-up applied to a dumped partner manifest: quoted `yes`/`no` scalars after a
    colon or a list dash lose their quotes, and the empty-note placeholder is removed after
    a colon or a list dash. Each step is a global regular-expression replacement. */
module ManifestYaml {
  import opened Text
  import NoteSections

  const Placeholder := NoteSections.EmptyNotePlaceholder

  predicate IsQuote(c: char) { c == '\'' || c == '"' }
  predicate NoGap(c: char) { false }
  predicate IsLetterS(c: char) { c == 's' }

  /** What follows the lead and the gap in a pattern. */
  datatype Tail =
    | QuotedYesNo               // (['"])(yes|no)\2, replaced by the word
    | QuotedWord(word: string)  // ['"]word['"], removed
    | BareWord(word: string)    // word, removed

  /** A pattern: a literal lead, a greedy run of a character class, then a tail. The
      replacement keeps the lead and the run; a `yes`/`no` tail keeps its word. */
  datatype Pattern = Pattern(lead: string, gap: char -> bool, tail: Tail)

  /** A successful match at the start of the text: how much it consumes and what replaces it. */
  datatype Match = Match(length: nat, replacement: string)

  /** `/(:\s*)(['"])(yes|no)\2/g` */
  const YesNoColon := Pattern(":", IsJsWhitespace, QuotedYesNo)
  /** `/(-\s*)(['"])(yes|no)\2/g` */
  const YesNoList := Pattern("-", IsJsWhitespace, QuotedYesNo)
  /** `: ['"]word['"]` */
  function QuotedAfterColon(word: string): Pattern { Pattern(": ", NoGap, QuotedWord(word)) }
  /** `: word` */
  function BareAfterColon(word: string): Pattern { Pattern(": ", NoGap, BareWord(word)) }
  /** `-<gap>['"]word['"]` */
  function QuotedAfterDash(gap: char -> bool, word: string): Pattern { Pattern("-", gap, QuotedWord(word)) }
  /** `-<gap>word` */
  function BareAfterDash(gap: char -> bool, word: string): Pattern { Pattern("-", gap, BareWord(word)) }

  /** The length of the leading run of gap characters. */
  function GapLength(gap: char -> bool, s: string): (n: nat)
    ensures n <= |s|
    decreases |s|
  {
    if s != [] && gap(s[0]) then 1 + GapLength(gap, s[1..]) else 0
  }

  /** Tries the pattern at the start of `s`. The gap is taken greedily; for every pattern
      here the character the tail needs next is outside the gap class, so no shorter gap
      could match either. */
  function MatchAt(p: Pattern, s: string): (r: Option<Match>)
    ensures r.Some? ==> StartsWith(s, p.lead)
    ensures r.Some? ==> 0 < r.value.length <= |s| && |r.value.replacement| <= r.value.length
  {
    if p.lead == [] || !StartsWith(s, p.lead) then None
    else
      var k := |p.lead| + GapLength(p.gap, s[|p.lead|..]);
      TailMatch(p.tail, s[..k], s[k..])
  }

  /** Tries the tail on `after`, the text behind the lead and gap `head`. */
  function TailMatch(tail: Tail, head: string, after: string): (r: Option<Match>)
    ensures r.Some? ==> |head| <= r.value.length <= |head| + |after|
    ensures r.Some? ==> |r.value.replacement| <= r.value.length
  {
    match tail
    case QuotedYesNo =>
      if |after| >= 5 && IsQuote(after[0]) && after[1..4] == "yes" && after[4] == after[0] then
        Some(Match(|head| + 5, head + "yes"))
      else if |after| >= 4 && IsQuote(after[0]) && after[1..3] == "no" && after[3] == after[0] then
        Some(Match(|head| + 4, head + "no"))
      else None
    case QuotedWord(x) =>
      if |after| >= |x| + 2 && IsQuote(after[0]) && after[1..|x| + 1] == x && IsQuote(after[|x| + 1])
      then Some(Match(|head| + |x| + 2, head))
      else None
    case BareWord(x) =>
      if StartsWith(after, x) then Some(Match(|head| + |x|, head)) else None
  }

  /** `text.replace(pattern, replacement)` with a global pattern: matches are taken from left
      to right without overlapping, and the text between them is kept. */
  function ReplaceAll(p: Pattern, s: string): (r: string)
    ensures |r| <= |s|
    decreases |s|
  {
    if s == [] then []
    else match MatchAt(p, s)
      case Some(m) => m.replacement + ReplaceAll(p, s[m.length..])
      case None => [s[0]] + ReplaceAll(p, s[1..])
  }

  /** No match starts anywhere in the text. */
  predicate NoMatchIn(p: Pattern, s: string) {
    forall i :: 0 <= i < |s| ==> MatchAt(p, s[i..]).None?
  }

  /** Text in which the pattern matches nowhere is left as it is. */
  lemma {:induction false} ReplaceAllNoMatch(p: Pattern, s: string)
    requires NoMatchIn(p, s)
    ensures ReplaceAll(p, s) == s
    decreases |s|
  {
    if s != [] {
      assert MatchAt(p, s[0..]).None?;
      assert s[0..] == s;
      forall i | 0 <= i < |s[1..]| ensures MatchAt(p, s[1..][i..]).None? {
        assert s[1..][i..] == s[i + 1..];
      }
      ReplaceAllNoMatch(p, s[1..]);
      assert s == [s[0]] + s[1..];
    }
  }

  /** A text that does not hold the first character of the lead holds no match. */
  lemma NoLeadNoMatch(p: Pattern, s: string)
    requires p.lead != [] && p.lead[0] !in s
    ensures NoMatchIn(p, s)
  {
    forall i | 0 <= i < |s| ensures MatchAt(p, s[i..]).None? {
      assert s[i..][0] == s[i];
    }
  }

  /** ... and is therefore left as it is. */
  lemma NoLeadUnchanged(p: Pattern, s: string)
    requires p.lead != [] && p.lead[0] !in s
    ensures ReplaceAll(p, s) == s
  {
    NoLeadNoMatch(p, s);
    ReplaceAllNoMatch(p, s);
  }

  /** The six replacements in order, removing `word`; `listGap` is the gap class of the two
      list patterns. */
  function Sanitize(text: string, word: string, listGap: char -> bool): (r: string)
    ensures |r| <= |text|
  {
    var t1 := ReplaceAll(YesNoColon, text);
    var t2 := ReplaceAll(YesNoList, t1);
    var t3 := ReplaceAll(QuotedAfterColon(word), t2);
    var t4 := ReplaceAll(BareAfterColon(word), t3);
    var t5 := ReplaceAll(QuotedAfterDash(listGap, word), t4);
    ReplaceAll(BareAfterDash(listGap, word), t5)
  }

  /** `sanitizeYamlText` as the source writes it: the `\s` of the two list patterns sits
      inside a template string, where it denotes the letter `s`, so their gap is a run of
      `s` characters. */
  function SanitizeYamlTextAsWritten(text: string): (r: string)
    ensures |r| <= |text|
  {
    Sanitize(text, Placeholder, IsLetterS)
  }

  /** `sanitizeYamlText` with the list patterns' gap read as the white space it evidently
      means. */
  function SanitizeYamlText(text: string): (r: string)
    ensures |r| <= |text|
  {
    Sanitize(text, Placeholder, IsJsWhitespace)
  }

  /** None of the six patterns matches anywhere in the text. */
  predicate Unmatched(text: string, word: string, listGap: char -> bool) {
    && NoMatchIn(YesNoColon, text) && NoMatchIn(YesNoList, text)
    && NoMatchIn(QuotedAfterColon(word), text) && NoMatchIn(BareAfterColon(word), text)
    && NoMatchIn(QuotedAfterDash(listGap, word), text) && NoMatchIn(BareAfterDash(listGap, word), text)
  }

  /** Every replacement is shorter than what it replaces, a removed bare word being
      non-empty. */
  lemma MatchShrinks(p: Pattern, s: string)
    requires p.tail.BareWord? ==> p.tail.word != []
    requires MatchAt(p, s).Some?
    ensures |MatchAt(p, s).value.replacement| < MatchAt(p, s).value.length
  {
    var k := |p.lead| + GapLength(p.gap, s[|p.lead|..]);
    assert MatchAt(p, s) == TailMatch(p.tail, s[..k], s[k..]);
  }

  /** A global replacement keeps the length of the text exactly when the pattern matches
      nowhere in it. */
  lemma {:induction false} ReplaceAllKeepsLength(p: Pattern, s: string)
    requires p.tail.BareWord? ==> p.tail.word != []
    ensures |ReplaceAll(p, s)| == |s| <==> NoMatchIn(p, s)
    decreases |s|
  {
    if NoMatchIn(p, s) {
      ReplaceAllNoMatch(p, s);
    } else {
      var i :| 0 <= i < |s| && MatchAt(p, s[i..]).Some?;
      match MatchAt(p, s)
      case Some(m) =>
        MatchShrinks(p, s);
      case None =>
        assert i != 0 by {
          assert s[0..] == s;
        }
        assert s[1..][i - 1..] == s[i..];
        ReplaceAllKeepsLength(p, s[1..]);
    }
  }

  /** The six steps return the text unchanged exactly when no pattern matches anywhere in
      it: every match shortens the text, and no step lengthens it. */
  lemma SanitizedIffUnmatched(text: string, word: string, listGap: char -> bool)
    requires word != []
    ensures Sanitize(text, word, listGap) == text <==> Unmatched(text, word, listGap)
  {
    var t1 := ReplaceAll(YesNoColon, text);
    var t2 := ReplaceAll(YesNoList, t1);
    var t3 := ReplaceAll(QuotedAfterColon(word), t2);
    var t4 := ReplaceAll(BareAfterColon(word), t3);
    var t5 := ReplaceAll(QuotedAfterDash(listGap, word), t4);
    if Unmatched(text, word, listGap) {
      ReplaceAllNoMatch(YesNoColon, text);
      ReplaceAllNoMatch(YesNoList, t1);
      ReplaceAllNoMatch(QuotedAfterColon(word), t2);
      ReplaceAllNoMatch(BareAfterColon(word), t3);
      ReplaceAllNoMatch(QuotedAfterDash(listGap, word), t4);
      ReplaceAllNoMatch(BareAfterDash(listGap, word), t5);
    }
    if Sanitize(text, word, listGap) == text {
      ReplaceAllKeepsLength(YesNoColon, text);
      ReplaceAllNoMatch(YesNoColon, text);
      ReplaceAllKeepsLength(YesNoList, t1);
      ReplaceAllNoMatch(YesNoList, t1);
      ReplaceAllKeepsLength(QuotedAfterColon(word), t2);
      ReplaceAllNoMatch(QuotedAfterColon(word), t2);
      ReplaceAllKeepsLength(BareAfterColon(word), t3);
      ReplaceAllNoMatch(BareAfterColon(word), t3);
      ReplaceAllKeepsLength(QuotedAfterDash(listGap, word), t4);
      ReplaceAllNoMatch(QuotedAfterDash(listGap, word), t4);
      ReplaceAllKeepsLength(BareAfterDash(listGap, word), t5);
    }
  }

  /** `sanitizeYamlText` returns its text unchanged exactly when none of its six patterns
      matches anywhere in it, as written and as corrected. */
  lemma SanitizeUnchanged(text: string)
    ensures SanitizeYamlText(text) == text <==> Unmatched(text, Placeholder, IsJsWhitespace)
    ensures SanitizeYamlTextAsWritten(text) == text <==> Unmatched(text, Placeholder, IsLetterS)
  {
    PlaceholderChars();
    SanitizedIffUnmatched(text, Placeholder, IsJsWhitespace);
    SanitizedIffUnmatched(text, Placeholder, IsLetterS);
  }

  /** Every character of `w` is in the gap class. */
  predicate InGap(w: string, gap: char -> bool)
    decreases |w|
  {
    w == [] || (gap(w[0]) && InGap(w[1..], gap))
  }

  lemma {:induction false} InGapOfAll(w: string, gap: char -> bool)
    requires forall i :: 0 <= i < |w| ==> gap(w[i])
    ensures InGap(w, gap)
    decreases |w|
  {
    if w != [] {
      InGapOfAll(w[1..], gap);
    }
  }

  lemma {:induction false} SkipGap(gap: char -> bool, w: string, rest: string)
    requires InGap(w, gap)
    requires rest != [] && !gap(rest[0])
    ensures GapLength(gap, w + rest) == |w|
    decreases |w|
  {
    if w != [] {
      assert (w + rest)[0] == w[0];
      assert (w + rest)[1..] == w[1..] + rest;
      SkipGap(gap, w[1..], rest);
    }
  }

  /** Behind the lead and a gap, matching continues with the tail. */
  lemma LeadGapSplit(p: Pattern, w: string, rest: string)
    requires p.lead != [] && InGap(w, p.gap)
    requires rest != [] && !p.gap(rest[0])
    ensures MatchAt(p, p.lead + w + rest) == TailMatch(p.tail, p.lead + w, rest)
  {
    var s := p.lead + w + rest;
    SplitThree(p.lead, w, rest);
    SkipGap(p.gap, w, rest);
  }

  /** The slices of a concatenation of three. */
  lemma SplitThree<T>(a: seq<T>, b: seq<T>, c: seq<T>)
    ensures (a + b + c)[..|a|] == a && (a + b + c)[|a|..] == b + c
    ensures (a + b + c)[..|a| + |b|] == a + b && (a + b + c)[|a| + |b|..] == c
  {
  }

  /** A match of the whole of `head + body` is replaced and scanning resumes behind it. */
  lemma ReplaceAllStep(p: Pattern, head: string, body: string, post: string, rep: string)
    requires MatchAt(p, head + (body + post)) == Some(Match(|head| + |body|, rep))
    ensures ReplaceAll(p, head + (body + post)) == rep + ReplaceAll(p, post)
  {
    var s := head + (body + post);
    assert s[|head| + |body|..] == post;
  }

  lemma Regroup<T>(a: seq<T>, b: seq<T>, c: seq<T>, d: seq<T>)
    ensures a + b + c + d == (a + b) + (c + d)
  {
  }

  lemma TailYesNo(head: string, q: char, word: string, post: string)
    requires IsQuote(q) && (word == "yes" || word == "no")
    ensures TailMatch(QuotedYesNo, head, [q] + word + [q] + post) == Some(Match(|head| + |word| + 2, head + word))
  {
    var after := [q] + word + [q] + post;
    assert after[0] == q && after[1 + |word|] == q;
    assert after[1..1 + |word|] == word;
    if word == "no" {
      assert after[1] == 'n';
    }
  }

  /** One step: a quoted `yes` or `no` after the lead and gap loses its quotes, whatever
      follows. */
  lemma StepUnquotesYesNo(p: Pattern, w: string, q: char, word: string, post: string)
    requires p.tail.QuotedYesNo? && p.lead != [] && !p.gap(q)
    requires InGap(w, p.gap)
    requires IsQuote(q) && (word == "yes" || word == "no")
    ensures ReplaceAll(p, p.lead + w + [q] + word + [q] + post) == p.lead + w + word + ReplaceAll(p, post)
  {
    var body := [q] + word + [q];
    Regroup(p.lead, w, body, post);
    assert p.lead + w + [q] + word + [q] + post == p.lead + w + body + post;
    LeadGapSplit(p, w, body + post);
    TailYesNo(p.lead + w, q, word, post);
    ReplaceAllStep(p, p.lead + w, body, post, p.lead + w + word);
  }

  /** One step: a `yes` or `no` between two different quotes, in either order, is not a
      match. */
  lemma StepKeepsMismatched(p: Pattern, w: string, q1: char, q2: char, word: string, post: string)
    requires p.tail.QuotedYesNo? && p.lead != [] && !p.gap(q1)
    requires InGap(w, p.gap)
    requires IsQuote(q1) && IsQuote(q2) && q1 != q2 && (word == "yes" || word == "no")
    ensures MatchAt(p, p.lead + w + [q1] + word + [q2] + post).None?
  {
    var rest := [q1] + word + [q2] + post;
    assert p.lead + w + [q1] + word + [q2] + post == p.lead + w + rest;
    LeadGapSplit(p, w, rest);
    TailMismatch(p.lead + w, q1, q2, word, post);
  }

  lemma TailMismatch(head: string, q1: char, q2: char, word: string, post: string)
    requires q1 != q2 && (word == "yes" || word == "no")
    ensures TailMatch(QuotedYesNo, head, [q1] + word + [q2] + post).None?
  {
    var after := [q1] + word + [q2] + post;
    assert after[0] == q1 && after[1 + |word|] == q2;
    assert after[1] == word[0];
  }

  lemma TailPlaceholder(tail: Tail, head: string, body: string, q1: char, q2: char, post: string)
    requires tail.QuotedWord? ==> IsQuote(q1) && IsQuote(q2) && body == [q1] + tail.word + [q2]
    requires tail.BareWord? ==> body == tail.word
    requires !tail.QuotedYesNo?
    ensures TailMatch(tail, head, body + post) == Some(Match(|head| + |body|, head))
  {
    var after := body + post;
    var x := tail.word;
    if tail.QuotedWord? {
      assert after[1..|x| + 1] == x;
      assert after[|x| + 1] == q2;
    } else {
      assert after[..|x|] == x;
    }
  }

  /** One step: the removed word, quoted with any two quote characters or bare, is removed
      after the lead and gap, whatever follows. */
  lemma StepRemovesWord(p: Pattern, w: string, quoted: bool, q1: char, q2: char, post: string)
    requires p.lead != [] && (p.tail.QuotedWord? <==> quoted) && !p.tail.QuotedYesNo?
    requires InGap(w, p.gap)
    requires quoted ==> IsQuote(q1) && IsQuote(q2) && !p.gap(q1)
    requires !quoted ==> p.tail.word != [] && !p.gap(p.tail.word[0])
    ensures var body := if quoted then [q1] + p.tail.word + [q2] else p.tail.word;
            ReplaceAll(p, p.lead + w + body + post) == p.lead + w + ReplaceAll(p, post)
  {
    var body := if quoted then [q1] + p.tail.word + [q2] else p.tail.word;
    assert (body + post)[0] == body[0];
    Regroup(p.lead, w, body, post);
    LeadGapSplit(p, w, body + post);
    TailPlaceholder(p.tail, p.lead + w, body, q1, q2, post);
    ReplaceAllStep(p, p.lead + w, body, post, p.lead + w);
  }

  /** The placeholder starts with an underscore and holds no quote, colon, dash or white
      space. */
  lemma PlaceholderChars()
    ensures Placeholder != [] && Placeholder[0] == '_'
    ensures forall i :: 0 <= i < |Placeholder| ==> Placeholder[i] == '_' || IsAsciiUpper(Placeholder[i])
    ensures ':' !in Placeholder && '-' !in Placeholder && PlainWord(Placeholder)
  {
  }

  /** A dash, a gap and a word: no pattern with a quoted tail matches there. */
  lemma DashItemNoQuotedMatch(p: Pattern, w: string, x: string)
    requires p.lead == "-" && !p.tail.BareWord?
    requires x != [] && !p.gap(x[0]) && !IsQuote(x[0]) && '-' !in x
    requires InGap(w, p.gap) && '-' !in w
    ensures ReplaceAll(p, "-" + w + x) == "-" + w + x
  {
    var s := "-" + w + x;
    forall i | 0 <= i < |s| ensures MatchAt(p, s[i..]).None? {
      NoMatchInDashItem(p, w, x, i);
    }
    ReplaceAllNoMatch(p, s);
  }

  lemma NoMatchInDashItem(p: Pattern, w: string, x: string, i: nat)
    requires p.lead == "-" && !p.tail.BareWord?
    requires x != [] && !p.gap(x[0]) && !IsQuote(x[0]) && '-' !in x
    requires InGap(w, p.gap) && '-' !in w
    requires i < |"-" + w + x|
    ensures MatchAt(p, ("-" + w + x)[i..]).None?
  {
    var s := "-" + w + x;
    if i == 0 {
      assert s[i..] == s;
      LeadGapSplit(p, w, x);
    } else {
      if i <= |w| {
        assert s[i] == w[i - 1];
      } else {
        assert s[i] == x[i - 1 - |w|];
      }
      NotLeadAt(p, s, i);
    }
  }

  /** No match starts at a character other than the first of the lead. */
  lemma NotLeadAt(p: Pattern, s: string, i: nat)
    requires p.lead != [] && i < |s| && s[i] != p.lead[0]
    ensures MatchAt(p, s[i..]).None?
  {
    assert s[i..][0] == s[i];
    assert !StartsWith(s[i..], p.lead);
  }

  /** A word fit for removal: it starts with an underscore and holds no colon or dash. */
  predicate PlainWord(x: string) {
    x != [] && x[0] == '_' && ':' !in x && '-' !in x
  }

  /** With the intended patterns a list item that holds only the placeholder keeps its dash
      and the white space after it. */
  lemma ListPlaceholderRemoved(w: string)
    requires AllWhitespace(w)
    ensures SanitizeYamlText("-" + w + Placeholder) == "-" + w
  {
    PlaceholderChars();
    ListItemRemoved(w, Placeholder);
  }

  lemma ListItemRemoved(w: string, x: string)
    requires AllWhitespace(w) && PlainWord(x)
    ensures Sanitize("-" + w + x, x, IsJsWhitespace) == "-" + w
  {
    var s := "-" + w + x;
    assert ':' !in w && '-' !in w;
    assert ':' !in s;
    InGapOfAll(w, IsJsWhitespace);
    NoLeadUnchanged(YesNoColon, s);
    NoLeadUnchanged(QuotedAfterColon(x), s);
    NoLeadUnchanged(BareAfterColon(x), s);
    DashItemNoQuotedMatch(YesNoList, w, x);
    DashItemNoQuotedMatch(QuotedAfterDash(IsJsWhitespace, x), w, x);
    StepRemovesWord(BareAfterDash(IsJsWhitespace, x), w, false, ' ', ' ', []);
    assert s + [] == s;
  }

  /** As written, a list item "- __NOTE_EMPTY__" (dash, space, placeholder) is not changed:
      the space is not an `s`. */
  lemma ListPlaceholderKeptAsWritten()
    ensures SanitizeYamlTextAsWritten("- " + Placeholder) == "- " + Placeholder
  {
    PlaceholderChars();
    DashSpaceItemKept(Placeholder);
  }

  lemma DashSpaceItemKept(x: string)
    requires PlainWord(x)
    ensures Sanitize("- " + x, x, IsLetterS) == "- " + x
  {
    var s := "- " + x;
    assert "-" + " " + x == s;
    assert ':' !in s;
    NoLeadUnchanged(YesNoColon, s);
    NoLeadUnchanged(QuotedAfterColon(x), s);
    NoLeadUnchanged(BareAfterColon(x), s);
    DashItemNoQuotedMatch(YesNoList, " ", x);
    DashGapNotS(QuotedAfterDash(IsLetterS, x), x);
    DashGapNotS(BareAfterDash(IsLetterS, x), x);
  }

  /** When a space is outside the gap, a dash followed by a space and a word that does not
      start with a space matches nothing. */
  lemma DashGapNotS(p: Pattern, x: string)
    requires p.lead == "-" && !p.gap(' ') && !p.tail.QuotedYesNo? && p.tail.word == x
    requires x != [] && x[0] != ' ' && '-' !in x
    ensures ReplaceAll(p, "- " + x) == "- " + x
  {
    var rest := " " + x;
    assert '-' !in rest;
    assert rest[0] == ' ';
    assert "- " + x == "-" + rest;
    assert !StartsWith(rest, x) by {
      assert rest[0] != x[0];
    }
    DashOnlyAtStart(p, rest);
  }

  /** A dash the pattern does not match at, and no other dash: nothing changes. */
  lemma DashOnlyAtStart(p: Pattern, rest: string)
    requires p.lead == "-" && rest != [] && !p.gap(rest[0]) && '-' !in rest
    requires TailMatch(p.tail, "-", rest).None?
    ensures ReplaceAll(p, "-" + rest) == "-" + rest
  {
    var s := "-" + rest;
    forall i | 0 <= i < |s| ensures MatchAt(p, s[i..]).None? {
      if i == 0 {
        assert s[i..] == s;
        LeadGapSplit(p, [], rest);
        assert "-" + [] + rest == s;
      } else {
        assert s[i..][0] == rest[i - 1];
        NotLeadAt(p, s, i);
      }
    }
    ReplaceAllNoMatch(p, s);
  }

  // ---------------------------------------------------------------- the whole clean-up on a line

  /** Neither a ':' nor a '-': no pattern can start in such text. */
  predicate NoLeadChar(s: string) {
    ':' !in s && '-' !in s
  }

  lemma NoLeadCharJoin(a: string, b: string)
    requires NoLeadChar(a) && NoLeadChar(b)
    ensures NoLeadChar(a + b)
  {
  }

  lemma WhitespaceNoWordMark(c: char)
    requires IsJsWhitespace(c)
    ensures c != '_' && !IsQuote(c)
  {
  }

  /** White space holds no lead character, no underscore and no quote. */
  lemma WhitespaceNoMark(w: string)
    requires AllWhitespace(w)
    ensures NoLeadChar(w) && '_' !in w && '\'' !in w && '"' !in w
  {
    forall c | c in w ensures c != ':' && c != '-' && c != '_' && c != '\'' && c != '"' {
      var i :| 0 <= i < |w| && w[i] == c;
      assert IsJsWhitespace(w[i]);
    }
  }

  /** Where no match starts, the scan copies the first character. */
  lemma CopyFirst(p: Pattern, s: string)
    requires s != [] && MatchAt(p, s).None?
    ensures ReplaceAll(p, s) == [s[0]] + ReplaceAll(p, s[1..])
  {
  }

  /** When no match starts inside `a`, the scan copies `a` and goes on with `b`. */
  lemma {:induction false} PrefixKept(p: Pattern, a: string, b: string)
    requires forall i :: 0 <= i < |a| ==> MatchAt(p, (a + b)[i..]).None?
    ensures ReplaceAll(p, a + b) == a + ReplaceAll(p, b)
    decreases |a|
  {
    if a != [] {
      var s := a + b;
      var t := a[1..] + b;
      assert s[0..] == s;
      assert s[1..] == t && s[0] == a[0];
      CopyFirst(p, s);
      forall i | 0 <= i < |a[1..]| ensures MatchAt(p, t[i..]).None? {
        assert t[i..] == s[i + 1..];
      }
      PrefixKept(p, a[1..], b);
      Regroup3([a[0]], a[1..], ReplaceAll(p, b));
      assert [a[0]] + a[1..] == a;
    } else {
      assert a + b == b;
    }
  }

  /** Text without the first character of the lead is copied, whatever follows it. */
  lemma LeadFree(p: Pattern, a: string, b: string)
    requires p.lead != [] && p.lead[0] !in a
    ensures ReplaceAll(p, a + b) == a + ReplaceAll(p, b)
  {
    forall i | 0 <= i < |a| ensures MatchAt(p, (a + b)[i..]).None? {
      assert (a + b)[i] == a[i];
      NotLeadAt(p, a + b, i);
    }
    PrefixKept(p, a, b);
  }

  /** Text whose only lead character is its first, where the pattern does not match, is
      copied. */
  lemma FirstOnlyLead(p: Pattern, a: string, b: string)
    requires a != [] && p.lead != [] && (p.lead[0] == ':' || p.lead[0] == '-') && NoLeadChar(a[1..])
    requires MatchAt(p, a + b).None?
    ensures ReplaceAll(p, a + b) == a + ReplaceAll(p, b)
  {
    forall i | 0 <= i < |a| ensures MatchAt(p, (a + b)[i..]).None? {
      if i == 0 {
        assert (a + b)[0..] == a + b;
      } else {
        assert (a + b)[i] == a[1..][i - 1];
        NotLeadAt(p, a + b, i);
      }
    }
    PrefixKept(p, a, b);
  }

  /** A key without ':' and '-' in front of the text is copied by all six steps. */
  lemma KeyKept(key: string, s: string, word: string, listGap: char -> bool)
    requires NoLeadChar(key)
    ensures Sanitize(key + s, word, listGap) == key + Sanitize(s, word, listGap)
  {
    var t1 := ReplaceAll(YesNoColon, s);
    var t2 := ReplaceAll(YesNoList, t1);
    var t3 := ReplaceAll(QuotedAfterColon(word), t2);
    var t4 := ReplaceAll(BareAfterColon(word), t3);
    var t5 := ReplaceAll(QuotedAfterDash(listGap, word), t4);
    LeadFree(YesNoColon, key, s);
    LeadFree(YesNoList, key, t1);
    LeadFree(QuotedAfterColon(word), key, t2);
    LeadFree(BareAfterColon(word), key, t3);
    LeadFree(QuotedAfterDash(listGap, word), key, t4);
    LeadFree(BareAfterDash(listGap, word), key, t5);
  }

  /** A replacement begins with the lead it matched, so a scan keeps the first character. */
  lemma ReplaceAllFirst(p: Pattern, s: string)
    requires s != []
    ensures ReplaceAll(p, s) != [] && ReplaceAll(p, s)[0] == s[0]
  {
    if MatchAt(p, s).Some? {
      var k := |p.lead| + GapLength(p.gap, s[|p.lead|..]);
      assert s[..k][0] == s[0];
    }
  }

  /** After a ':', white space `w` and then `v`, which starts with neither white space nor
      an underscore nor a quote followed by one, no placeholder pattern of the colon matches. */
  lemma ColonNoPlaceholder(x: string, w: string, v: string, b: string)
    requires PlainWord(x) && AllWhitespace(w)
    requires v != [] && !IsJsWhitespace(v[0]) && v[0] != '_'
    requires IsQuote(v[0]) ==> |v| >= 2 && v[1] != '_'
    ensures MatchAt(QuotedAfterColon(x), ":" + w + v + b).None?
    ensures MatchAt(BareAfterColon(x), ":" + w + v + b).None?
  {
    var s := ":" + w + v + b;
    if w == [] || w[0] != ' ' {
      assert s[1] != ' ' by {
        if w == [] { assert s[1] == v[0]; } else { assert s[1] == w[0]; }
      }
      assert !StartsWith(s, ": ") by {
        assert s[..2][1] == s[1];
      }
    } else {
      var after := s[2..];
      assert s[..2] == ": ";
      assert |after| >= 1;
      if |w| >= 2 {
        assert after[0] == w[1] && IsJsWhitespace(w[1]);
      } else {
        assert after[0] == v[0];
        if IsQuote(v[0]) {
          assert after[1] == v[1];
        }
      }
    }
  }

  /** The greedy gap covers a run of gap characters and stops at one outside the class. */
  lemma {:induction false} GapStops(gap: char -> bool, s: string)
    ensures forall j :: 0 <= j < GapLength(gap, s) ==> gap(s[j])
    ensures GapLength(gap, s) < |s| ==> !gap(s[GapLength(gap, s)])
    decreases |s|
  {
    if s != [] && gap(s[0]) {
      GapStops(gap, s[1..]);
      forall j | 0 <= j < GapLength(gap, s) ensures gap(s[j]) {
        if j > 0 {
          assert s[j] == s[1..][j - 1];
        }
      }
    }
  }

  /** Text that starts with neither an underscore nor a quote followed by one holds neither
      the quoted nor the bare word at its start. */
  lemma TailNoWord(x: string, head: string, after: string)
    requires PlainWord(x) && after != [] && after[0] != '_'
    requires IsQuote(after[0]) ==> |after| >= 2 && after[1] != '_'
    ensures TailMatch(QuotedWord(x), head, after).None?
    ensures TailMatch(BareWord(x), head, after).None?
  {
    if |after| >= |x| {
      assert after[..|x|][0] == after[0];
    }
    if |after| >= |x| + 2 && IsQuote(after[0]) {
      assert after[1..|x| + 1][0] == after[1];
    }
  }

  /** Text that starts with no quote followed by `y` or `n` holds no quoted yes/no at its
      start. */
  lemma TailNoYesNo(head: string, after: string)
    requires after != [] && (IsQuote(after[0]) ==> |after| >= 2 && after[1] != 'y' && after[1] != 'n')
    ensures TailMatch(QuotedYesNo, head, after).None?
  {
    if |after| >= 4 && IsQuote(after[0]) {
      assert after[1..3][0] == after[1];
    }
    if |after| >= 5 && IsQuote(after[0]) {
      assert after[1..4][0] == after[1];
    }
  }

  /** After a '-', white space `w` and then `v`, which is outside the gap and starts with
      neither an underscore nor a quote followed by one, no placeholder pattern of the list
      matches. */
  lemma DashNoPlaceholder(gap: char -> bool, x: string, w: string, v: string, b: string)
    requires PlainWord(x) && AllWhitespace(w)
    requires v != [] && !gap(v[0]) && v[0] != '_'
    requires IsQuote(v[0]) ==> |v| >= 2 && v[1] != '_'
    ensures MatchAt(QuotedAfterDash(gap, x), "-" + w + v + b).None?
    ensures MatchAt(BareAfterDash(gap, x), "-" + w + v + b).None?
  {
    var s := "-" + w + v + b;
    var t := s[1..];
    assert t == w + v + b;
    GapStops(gap, t);
    var k := GapLength(gap, t);
    assert t[|w|] == v[0];
    assert k <= |w|;
    var after := s[1 + k..];
    assert after == t[k..];
    if k < |w| {
      assert after[0] == w[k];
      WhitespaceNoWordMark(w[k]);
    } else {
      assert after[0] == v[0];
      if IsQuote(v[0]) {
        assert after[1] == v[1];
      }
    }
    TailNoWord(x, s[..1 + k], after);
  }

  /** Behind the lead and gap, a `v` that is not a quote followed by `yes` or `no` gives no
      yes/no match. */
  lemma NoYesNoBefore(p: Pattern, w: string, v: string, b: string)
    requires p.tail.QuotedYesNo? && p.lead != [] && InGap(w, p.gap)
    requires v != [] && !p.gap(v[0])
    requires IsQuote(v[0]) ==> |v| >= 2 && v[1] != 'y' && v[1] != 'n'
    ensures MatchAt(p, p.lead + w + v + b).None?
  {
    LeadGapSplit(p, w, v + b);
    assert p.lead + w + v + b == p.lead + w + (v + b);
    var after := v + b;
    assert after[0] == v[0];
    if IsQuote(v[0]) {
      assert after[1] == v[1];
    }
    TailNoYesNo(p.lead + w, after);
  }

  /** Behind a ':', white space and a `v` fit for `ColonNoPlaceholder`, both colon
      placeholder steps copy that text and go on with what follows. */
  lemma ColonKept(x: string, w: string, v: string, b: string)
    requires PlainWord(x) && AllWhitespace(w) && NoLeadChar(v)
    requires v != [] && !IsJsWhitespace(v[0]) && v[0] != '_'
    requires IsQuote(v[0]) ==> |v| >= 2 && v[1] != '_'
    ensures ReplaceAll(QuotedAfterColon(x), ":" + w + v + b) == ":" + w + v + ReplaceAll(QuotedAfterColon(x), b)
    ensures ReplaceAll(BareAfterColon(x), ":" + w + v + b) == ":" + w + v + ReplaceAll(BareAfterColon(x), b)
  {
    WhitespaceNoMark(w);
    NoLeadCharJoin(w, v);
    var a := ":" + w + v;
    assert a[1..] == w + v;
    ColonNoPlaceholder(x, w, v, b);
    FirstOnlyLead(QuotedAfterColon(x), a, b);
    FirstOnlyLead(BareAfterColon(x), a, b);
  }

  /** Behind a '-', white space and a `v` fit for `DashNoPlaceholder`, both list
      placeholder steps copy that text and go on with what follows. */
  lemma DashKept(gap: char -> bool, x: string, w: string, v: string, b: string)
    requires PlainWord(x) && AllWhitespace(w) && NoLeadChar(v)
    requires v != [] && !gap(v[0]) && v[0] != '_'
    requires IsQuote(v[0]) ==> |v| >= 2 && v[1] != '_'
    ensures ReplaceAll(QuotedAfterDash(gap, x), "-" + w + v + b) == "-" + w + v + ReplaceAll(QuotedAfterDash(gap, x), b)
    ensures ReplaceAll(BareAfterDash(gap, x), "-" + w + v + b) == "-" + w + v + ReplaceAll(BareAfterDash(gap, x), b)
  {
    WhitespaceNoMark(w);
    NoLeadCharJoin(w, v);
    var a := "-" + w + v;
    assert a[1..] == w + v;
    DashNoPlaceholder(gap, x, w, v, b);
    FirstOnlyLead(QuotedAfterDash(gap, x), a, b);
    FirstOnlyLead(BareAfterDash(gap, x), a, b);
  }

  // ---------------------------------------------------------------- fronts through the six steps

  /** A step turns `a0` at the front of any text into `a1` and goes on behind it. */
  ghost predicate StepMaps(p: Pattern, a0: string, a1: string) {
    forall b: string {:trigger ReplaceAll(p, a0 + b)} :: ReplaceAll(p, a0 + b) == a1 + ReplaceAll(p, b)
  }

  /** When each step turns the front of the text into the next front, the clean-up turns
      `a0` into `a6` and cleans what follows on its own. */
  lemma SanitizeMaps(a0: string, a1: string, a2: string, a3: string, a4: string, a5: string, a6: string,
                     post: string, x: string, gap: char -> bool)
    requires StepMaps(YesNoColon, a0, a1) && StepMaps(YesNoList, a1, a2)
    requires StepMaps(QuotedAfterColon(x), a2, a3) && StepMaps(BareAfterColon(x), a3, a4)
    requires StepMaps(QuotedAfterDash(gap, x), a4, a5) && StepMaps(BareAfterDash(gap, x), a5, a6)
    ensures Sanitize(a0 + post, x, gap) == a6 + Sanitize(post, x, gap)
  {
    var b1 := ReplaceAll(YesNoColon, post);
    var b2 := ReplaceAll(YesNoList, b1);
    var b3 := ReplaceAll(QuotedAfterColon(x), b2);
    var b4 := ReplaceAll(BareAfterColon(x), b3);
    var b5 := ReplaceAll(QuotedAfterDash(gap, x), b4);
    assert ReplaceAll(YesNoColon, a0 + post) == a1 + b1;
    assert ReplaceAll(YesNoList, a1 + b1) == a2 + b2;
    assert ReplaceAll(QuotedAfterColon(x), a2 + b2) == a3 + b3;
    assert ReplaceAll(BareAfterColon(x), a3 + b3) == a4 + b4;
    assert ReplaceAll(QuotedAfterDash(gap, x), a4 + b4) == a5 + b5;
  }

  /** Concatenation regrouped, for terms the solver should not open. */
  lemma Regroup3(x: string, y: string, z: string)
    ensures x + (y + z) == x + y + z
  {
  }

  /** A key without the lead character in front does not change how a step maps what
      follows it. */
  lemma KeyStep(p: Pattern, key: string, a0: string, a1: string, b: string)
    requires p.lead != [] && p.lead[0] !in key
    requires ReplaceAll(p, a0 + b) == a1 + ReplaceAll(p, b)
    ensures ReplaceAll(p, key + a0 + b) == key + a1 + ReplaceAll(p, b)
  {
    Regroup3(key, a0, b);
    LeadFree(p, key, a0 + b);
    Regroup3(key, a1, ReplaceAll(p, b));
  }

  lemma KeyMaps(p: Pattern, key: string, a0: string, a1: string, k0: string, k1: string)
    requires p.lead != [] && p.lead[0] !in key && StepMaps(p, a0, a1)
    requires k0 == key + a0 && k1 == key + a1
    ensures StepMaps(p, k0, k1)
  {
    forall b: string ensures ReplaceAll(p, k0 + b) == k1 + ReplaceAll(p, b) {
      KeyStep(p, key, a0, a1, b);
    }
  }

  lemma LeadFreeMaps(p: Pattern, a: string)
    requires p.lead != [] && p.lead[0] !in a
    ensures StepMaps(p, a, a)
  {
    forall b: string ensures ReplaceAll(p, a + b) == a + ReplaceAll(p, b) {
      LeadFree(p, a, b);
    }
  }

  lemma UnquoteMaps(p: Pattern, w: string, q: char, yn: string)
    requires p.tail.QuotedYesNo? && p.lead != [] && !p.gap(q) && InGap(w, p.gap)
    requires IsQuote(q) && (yn == "yes" || yn == "no")
    ensures StepMaps(p, p.lead + w + [q] + yn + [q], p.lead + w + yn)
  {
    forall b: string ensures ReplaceAll(p, p.lead + w + [q] + yn + [q] + b) == p.lead + w + yn + ReplaceAll(p, b) {
      StepUnquotesYesNo(p, w, q, yn, b);
    }
  }

  lemma MismatchMaps(p: Pattern, w: string, q1: char, q2: char, yn: string)
    requires p.tail.QuotedYesNo? && (p.lead == ":" || p.lead == "-") && !p.gap(q1)
    requires AllWhitespace(w) && InGap(w, p.gap)
    requires IsQuote(q1) && IsQuote(q2) && q1 != q2 && (yn == "yes" || yn == "no")
    ensures StepMaps(p, p.lead + w + [q1] + yn + [q2], p.lead + w + [q1] + yn + [q2])
  {
    var a := p.lead + w + [q1] + yn + [q2];
    var v := [q1] + yn + [q2];
    WhitespaceNoMark(w);
    assert NoLeadChar(v);
    NoLeadCharJoin(w, v);
    assert a[1..] == w + v;
    forall b: string ensures ReplaceAll(p, a + b) == a + ReplaceAll(p, b) {
      StepKeepsMismatched(p, w, q1, q2, yn, b);
      FirstOnlyLead(p, a, b);
    }
  }

  lemma ColonKeptMaps(x: string, w: string, v: string)
    requires PlainWord(x) && AllWhitespace(w) && NoLeadChar(v)
    requires v != [] && !IsJsWhitespace(v[0]) && v[0] != '_'
    requires IsQuote(v[0]) ==> |v| >= 2 && v[1] != '_'
    ensures StepMaps(QuotedAfterColon(x), ":" + w + v, ":" + w + v)
    ensures StepMaps(BareAfterColon(x), ":" + w + v, ":" + w + v)
  {
    forall b: string ensures ReplaceAll(QuotedAfterColon(x), ":" + w + v + b) == ":" + w + v + ReplaceAll(QuotedAfterColon(x), b) {
      ColonKept(x, w, v, b);
    }
    forall b: string ensures ReplaceAll(BareAfterColon(x), ":" + w + v + b) == ":" + w + v + ReplaceAll(BareAfterColon(x), b) {
      ColonKept(x, w, v, b);
    }
  }

  lemma DashKeptMaps(gap: char -> bool, x: string, w: string, v: string)
    requires PlainWord(x) && AllWhitespace(w) && NoLeadChar(v)
    requires v != [] && !gap(v[0]) && v[0] != '_'
    requires IsQuote(v[0]) ==> |v| >= 2 && v[1] != '_'
    ensures StepMaps(QuotedAfterDash(gap, x), "-" + w + v, "-" + w + v)
    ensures StepMaps(BareAfterDash(gap, x), "-" + w + v, "-" + w + v)
  {
    forall b: string ensures ReplaceAll(QuotedAfterDash(gap, x), "-" + w + v + b) == "-" + w + v + ReplaceAll(QuotedAfterDash(gap, x), b) {
      DashKept(gap, x, w, v, b);
    }
    forall b: string ensures ReplaceAll(BareAfterDash(gap, x), "-" + w + v + b) == "-" + w + v + ReplaceAll(BareAfterDash(gap, x), b) {
      DashKept(gap, x, w, v, b);
    }
  }

  // ---------------------------------------------------------------- the clean-up on one entry

  /** The six steps on a key, a ':' and a quoted yes/no: the quotes go. */
  lemma ColonYesNoSanitized(key: string, w: string, q: char, yn: string, post: string, x: string, gap: char -> bool)
    requires NoLeadChar(key) && AllWhitespace(w) && IsQuote(q) && (yn == "yes" || yn == "no") && PlainWord(x)
    ensures Sanitize(key + ":" + w + [q] + yn + [q] + post, x, gap) == key + ":" + w + yn + Sanitize(post, x, gap)
  {
    var u0 := ":" + w + [q] + yn + [q];
    var u1 := ":" + w + yn;
    var k0 := key + ":" + w + [q] + yn + [q];
    var k1 := key + ":" + w + yn;
    assert k0 == key + u0 && k1 == key + u1;
    WhitespaceNoMark(w);
    InGapOfAll(w, IsJsWhitespace);
    UnquoteMaps(YesNoColon, w, q, yn);
    assert NoLeadChar(yn);
    NoLeadCharJoin(w, yn);
    assert '-' !in u1;
    LeadFreeMaps(YesNoList, u1);
    ColonKeptMaps(x, w, yn);
    LeadFreeMaps(QuotedAfterDash(gap, x), u1);
    LeadFreeMaps(BareAfterDash(gap, x), u1);
    KeyMaps(YesNoColon, key, u0, u1, k0, k1);
    KeyMaps(YesNoList, key, u1, u1, k1, k1);
    KeyMaps(QuotedAfterColon(x), key, u1, u1, k1, k1);
    KeyMaps(BareAfterColon(x), key, u1, u1, k1, k1);
    KeyMaps(QuotedAfterDash(gap, x), key, u1, u1, k1, k1);
    KeyMaps(BareAfterDash(gap, x), key, u1, u1, k1, k1);
    SanitizeMaps(k0, k1, k1, k1, k1, k1, k1, post, x, gap);
  }

  /** The six steps on an indentation, a '-' and a quoted yes/no: the quotes go. */
  lemma DashYesNoSanitized(key: string, w: string, q: char, yn: string, post: string, x: string, gap: char -> bool)
    requires NoLeadChar(key) && AllWhitespace(w) && IsQuote(q) && (yn == "yes" || yn == "no") && PlainWord(x)
    requires !gap(yn[0])
    ensures Sanitize(key + "-" + w + [q] + yn + [q] + post, x, gap) == key + "-" + w + yn + Sanitize(post, x, gap)
  {
    var u0 := "-" + w + [q] + yn + [q];
    var u1 := "-" + w + yn;
    var k0 := key + "-" + w + [q] + yn + [q];
    var k1 := key + "-" + w + yn;
    assert k0 == key + u0 && k1 == key + u1;
    WhitespaceNoMark(w);
    InGapOfAll(w, IsJsWhitespace);
    assert NoLeadChar(yn);
    NoLeadCharJoin(w, yn);
    assert ':' !in u0 && ':' !in u1;
    LeadFreeMaps(YesNoColon, u0);
    UnquoteMaps(YesNoList, w, q, yn);
    LeadFreeMaps(QuotedAfterColon(x), u1);
    LeadFreeMaps(BareAfterColon(x), u1);
    DashKeptMaps(gap, x, w, yn);
    KeyMaps(YesNoColon, key, u0, u0, k0, k0);
    KeyMaps(YesNoList, key, u0, u1, k0, k1);
    KeyMaps(QuotedAfterColon(x), key, u1, u1, k1, k1);
    KeyMaps(BareAfterColon(x), key, u1, u1, k1, k1);
    KeyMaps(QuotedAfterDash(gap, x), key, u1, u1, k1, k1);
    KeyMaps(BareAfterDash(gap, x), key, u1, u1, k1, k1);
    SanitizeMaps(k0, k0, k1, k1, k1, k1, k1, post, x, gap);
  }

  /** A quoted `yes` or `no` after a key and a colon, or after an indentation and a list
      dash, loses its quotes; the text after it is cleaned as if it stood alone. */
  lemma UnquotesYesNo(key: string, w: string, q: char, yn: string, post: string)
    requires NoLeadChar(key) && AllWhitespace(w) && IsQuote(q) && (yn == "yes" || yn == "no")
    ensures SanitizeYamlText(key + ":" + w + [q] + yn + [q] + post) == key + ":" + w + yn + SanitizeYamlText(post)
    ensures SanitizeYamlTextAsWritten(key + ":" + w + [q] + yn + [q] + post) == key + ":" + w + yn + SanitizeYamlTextAsWritten(post)
    ensures SanitizeYamlText(key + "-" + w + [q] + yn + [q] + post) == key + "-" + w + yn + SanitizeYamlText(post)
    ensures SanitizeYamlTextAsWritten(key + "-" + w + [q] + yn + [q] + post) == key + "-" + w + yn + SanitizeYamlTextAsWritten(post)
  {
    PlaceholderChars();
    ColonYesNoSanitized(key, w, q, yn, post, Placeholder, IsJsWhitespace);
    ColonYesNoSanitized(key, w, q, yn, post, Placeholder, IsLetterS);
    DashYesNoSanitized(key, w, q, yn, post, Placeholder, IsJsWhitespace);
    DashYesNoSanitized(key, w, q, yn, post, Placeholder, IsLetterS);
  }

  /** The six steps on a key, a ':' and a yes/no between two different quotes: nothing
      changes there. */
  lemma ColonMismatchSanitized(key: string, w: string, q1: char, q2: char, yn: string, post: string, x: string, gap: char -> bool)
    requires NoLeadChar(key) && AllWhitespace(w) && IsQuote(q1) && IsQuote(q2) && q1 != q2 && (yn == "yes" || yn == "no")
    requires PlainWord(x)
    ensures Sanitize(key + ":" + w + [q1] + yn + [q2] + post, x, gap) == key + ":" + w + [q1] + yn + [q2] + Sanitize(post, x, gap)
  {
    var v := [q1] + yn + [q2];
    var u0 := ":" + w + [q1] + yn + [q2];
    var k0 := key + ":" + w + [q1] + yn + [q2];
    assert k0 == key + u0 && u0 == ":" + w + v;
    WhitespaceNoMark(w);
    InGapOfAll(w, IsJsWhitespace);
    assert NoLeadChar(v);
    NoLeadCharJoin(w, v);
    assert '-' !in u0;
    MismatchMaps(YesNoColon, w, q1, q2, yn);
    LeadFreeMaps(YesNoList, u0);
    ColonKeptMaps(x, w, v);
    LeadFreeMaps(QuotedAfterDash(gap, x), u0);
    LeadFreeMaps(BareAfterDash(gap, x), u0);
    KeyMaps(YesNoColon, key, u0, u0, k0, k0);
    KeyMaps(YesNoList, key, u0, u0, k0, k0);
    KeyMaps(QuotedAfterColon(x), key, u0, u0, k0, k0);
    KeyMaps(BareAfterColon(x), key, u0, u0, k0, k0);
    KeyMaps(QuotedAfterDash(gap, x), key, u0, u0, k0, k0);
    KeyMaps(BareAfterDash(gap, x), key, u0, u0, k0, k0);
    SanitizeMaps(k0, k0, k0, k0, k0, k0, k0, post, x, gap);
  }

  /** The six steps on an indentation, a '-' and a yes/no between two different quotes:
      nothing changes there. */
  lemma DashMismatchSanitized(key: string, w: string, q1: char, q2: char, yn: string, post: string, x: string, gap: char -> bool)
    requires NoLeadChar(key) && AllWhitespace(w) && IsQuote(q1) && IsQuote(q2) && q1 != q2 && (yn == "yes" || yn == "no")
    requires PlainWord(x) && !gap(q1)
    ensures Sanitize(key + "-" + w + [q1] + yn + [q2] + post, x, gap) == key + "-" + w + [q1] + yn + [q2] + Sanitize(post, x, gap)
  {
    var v := [q1] + yn + [q2];
    var u0 := "-" + w + [q1] + yn + [q2];
    var k0 := key + "-" + w + [q1] + yn + [q2];
    assert k0 == key + u0 && u0 == "-" + w + v;
    WhitespaceNoMark(w);
    InGapOfAll(w, IsJsWhitespace);
    assert NoLeadChar(v);
    NoLeadCharJoin(w, v);
    assert ':' !in u0;
    LeadFreeMaps(YesNoColon, u0);
    MismatchMaps(YesNoList, w, q1, q2, yn);
    LeadFreeMaps(QuotedAfterColon(x), u0);
    LeadFreeMaps(BareAfterColon(x), u0);
    DashKeptMaps(gap, x, w, v);
    KeyMaps(YesNoColon, key, u0, u0, k0, k0);
    KeyMaps(YesNoList, key, u0, u0, k0, k0);
    KeyMaps(QuotedAfterColon(x), key, u0, u0, k0, k0);
    KeyMaps(BareAfterColon(x), key, u0, u0, k0, k0);
    KeyMaps(QuotedAfterDash(gap, x), key, u0, u0, k0, k0);
    KeyMaps(BareAfterDash(gap, x), key, u0, u0, k0, k0);
    SanitizeMaps(k0, k0, k0, k0, k0, k0, k0, post, x, gap);
  }

  /** A `yes` or `no` opened by one kind of quote and closed by the other, in either order,
      is left as it is after a key and a colon or after an indentation and a list dash,
      because of the backreference; the text after it is cleaned as if it stood alone. */
  lemma MismatchedQuotesKept(key: string, w: string, q1: char, q2: char, yn: string, post: string)
    requires NoLeadChar(key) && AllWhitespace(w) && IsQuote(q1) && IsQuote(q2) && q1 != q2 && (yn == "yes" || yn == "no")
    ensures SanitizeYamlText(key + ":" + w + [q1] + yn + [q2] + post) == key + ":" + w + [q1] + yn + [q2] + SanitizeYamlText(post)
    ensures SanitizeYamlText(key + "-" + w + [q1] + yn + [q2] + post) == key + "-" + w + [q1] + yn + [q2] + SanitizeYamlText(post)
  {
    PlaceholderChars();
    assert !IsJsWhitespace(q1);
    ColonMismatchSanitized(key, w, q1, q2, yn, post, Placeholder, IsJsWhitespace);
    DashMismatchSanitized(key, w, q1, q2, yn, post, Placeholder, IsJsWhitespace);
  }

  /** The same with the list gap as written. */
  lemma MismatchedQuotesKeptAsWritten(key: string, w: string, q1: char, q2: char, yn: string, post: string)
    requires NoLeadChar(key) && AllWhitespace(w) && IsQuote(q1) && IsQuote(q2) && q1 != q2 && (yn == "yes" || yn == "no")
    ensures SanitizeYamlTextAsWritten(key + ":" + w + [q1] + yn + [q2] + post) == key + ":" + w + [q1] + yn + [q2] + SanitizeYamlTextAsWritten(post)
    ensures SanitizeYamlTextAsWritten(key + "-" + w + [q1] + yn + [q2] + post) == key + "-" + w + [q1] + yn + [q2] + SanitizeYamlTextAsWritten(post)
  {
    PlaceholderChars();
    ColonMismatchSanitized(key, w, q1, q2, yn, post, Placeholder, IsLetterS);
    DashMismatchSanitized(key, w, q1, q2, yn, post, Placeholder, IsLetterS);
  }

  /** Behind ": ", a `v` that starts with no white space and no quote followed by `y` or `n`
      gives no yes/no match. */
  lemma ColonNoYesNo(v: string, b: string)
    requires v != [] && !IsJsWhitespace(v[0])
    requires IsQuote(v[0]) ==> |v| >= 2 && v[1] != 'y' && v[1] != 'n'
    ensures MatchAt(YesNoColon, ": " + v + b).None?
  {
    InGapOfAll(" ", IsJsWhitespace);
    NoYesNoBefore(YesNoColon, " ", v, b);
    assert ":" + " " + v + b == ": " + v + b;
  }

  /** Behind ": ", text that starts with neither an underscore nor a quote followed by one
      gives no match of the colon placeholder patterns. */
  lemma ColonNoWord(x: string, b: string)
    requires PlainWord(x) && (b == [] || b[0] != '_')
    ensures MatchAt(BareAfterColon(x), ": " + b).None?
  {
    var s := ": " + b;
    assert s[2..] == b;
    assert GapLength(NoGap, s[2..]) == 0;
    if |b| >= |x| {
      assert b[..|x|][0] == b[0];
    }
  }

  /** What starts with ':' and holds no other ':' or '-', where the pattern does not match,
      is copied by a colon step. */
  lemma ColonFrontKept(p: Pattern, v: string, b: string)
    requires p.lead != [] && p.lead[0] == ':' && NoLeadChar(" " + v)
    requires MatchAt(p, ": " + v + b).None?
    ensures ReplaceAll(p, ": " + v + b) == ": " + v + ReplaceAll(p, b)
  {
    var a := ": " + v;
    assert a[1..] == " " + v;
    FirstOnlyLead(p, a, b);
  }

  lemma QuotedColonKeepsYesNo(x: string, q1: char, q2: char, b: string)
    requires PlainWord(x) && IsQuote(q1) && IsQuote(q2)
    ensures ReplaceAll(YesNoColon, ": " + ([q1] + x + [q2]) + b) == ": " + ([q1] + x + [q2]) + ReplaceAll(YesNoColon, b)
  {
    var v := [q1] + x + [q2];
    assert v[0] == q1 && v[1] == '_';
    ColonNoYesNo(v, b);
    assert NoLeadChar(v);
    NoLeadCharJoin(" ", v);
    ColonFrontKept(YesNoColon, v, b);
  }

  lemma QuotedColonRemoves(x: string, q1: char, q2: char, b: string)
    requires PlainWord(x) && IsQuote(q1) && IsQuote(q2)
    ensures ReplaceAll(QuotedAfterColon(x), ": " + ([q1] + x + [q2]) + b) == ": " + ReplaceAll(QuotedAfterColon(x), b)
  {
    StepRemovesWord(QuotedAfterColon(x), [], true, q1, q2, b);
    assert ": " + [] + ([q1] + x + [q2]) + b == ": " + ([q1] + x + [q2]) + b;
    assert ": " + [] == ": ";
  }

  /** Behind ": ", the quoted word is no yes/no and is removed by the quoted step. */
  lemma QuotedColonMaps(x: string, q1: char, q2: char)
    requires PlainWord(x) && IsQuote(q1) && IsQuote(q2)
    ensures StepMaps(YesNoColon, ": " + ([q1] + x + [q2]), ": " + ([q1] + x + [q2]))
    ensures StepMaps(QuotedAfterColon(x), ": " + ([q1] + x + [q2]), ": ")
  {
    forall b: string ensures ReplaceAll(YesNoColon, ": " + ([q1] + x + [q2]) + b) == ": " + ([q1] + x + [q2]) + ReplaceAll(YesNoColon, b) {
      QuotedColonKeepsYesNo(x, q1, q2, b);
    }
    forall b: string ensures ReplaceAll(QuotedAfterColon(x), ": " + ([q1] + x + [q2]) + b) == ": " + ReplaceAll(QuotedAfterColon(x), b) {
      QuotedColonRemoves(x, q1, q2, b);
    }
  }

  lemma BareColonKeepsYesNo(x: string, b: string)
    requires PlainWord(x)
    ensures ReplaceAll(YesNoColon, ": " + x + b) == ": " + x + ReplaceAll(YesNoColon, b)
  {
    ColonNoYesNo(x, b);
    NoLeadCharJoin(" ", x);
    ColonFrontKept(YesNoColon, x, b);
  }

  lemma BareColonKeepsQuoted(x: string, b: string)
    requires PlainWord(x)
    ensures ReplaceAll(QuotedAfterColon(x), ": " + x + b) == ": " + x + ReplaceAll(QuotedAfterColon(x), b)
  {
    var s := ": " + x + b;
    assert s[2..] == x + b && GapLength(NoGap, s[2..]) == 0;
    assert (x + b)[0] == '_';
    assert TailMatch(QuotedWord(x), s[..2], s[2..]).None?;
    NoLeadCharJoin(" ", x);
    ColonFrontKept(QuotedAfterColon(x), x, b);
  }

  lemma BareColonRemoves(x: string, b: string)
    requires PlainWord(x)
    ensures ReplaceAll(BareAfterColon(x), ": " + x + b) == ": " + ReplaceAll(BareAfterColon(x), b)
  {
    StepRemovesWord(BareAfterColon(x), [], false, ' ', ' ', b);
    assert ": " + [] + x + b == ": " + x + b;
    assert ": " + [] == ": ";
  }

  /** Behind ": ", the bare word is no yes/no and no quoted word, and is removed by the
      bare step. */
  lemma BareColonMaps(x: string)
    requires PlainWord(x)
    ensures StepMaps(YesNoColon, ": " + x, ": " + x)
    ensures StepMaps(QuotedAfterColon(x), ": " + x, ": " + x)
    ensures StepMaps(BareAfterColon(x), ": " + x, ": ")
  {
    forall b: string ensures ReplaceAll(YesNoColon, ": " + x + b) == ": " + x + ReplaceAll(YesNoColon, b) {
      BareColonKeepsYesNo(x, b);
    }
    forall b: string ensures ReplaceAll(QuotedAfterColon(x), ": " + x + b) == ": " + x + ReplaceAll(QuotedAfterColon(x), b) {
      BareColonKeepsQuoted(x, b);
    }
    forall b: string ensures ReplaceAll(BareAfterColon(x), ": " + x + b) == ": " + ReplaceAll(BareAfterColon(x), b) {
      BareColonRemoves(x, b);
    }
  }

  /** The six steps on a key, ": " and the bare word: the word goes. */
  lemma ColonBareWordSanitized(key: string, post: string, x: string, gap: char -> bool)
    requires NoLeadChar(key) && PlainWord(x)
    ensures Sanitize(key + ": " + x + post, x, gap) == key + ": " + Sanitize(post, x, gap)
  {
    var u0 := ": " + x;
    var k0 := key + ": " + x;
    var k1 := key + ": ";
    assert k0 == key + u0;
    BareColonMaps(x);
    LeadFreeMaps(YesNoList, u0);
    LeadFreeMaps(QuotedAfterDash(gap, x), ": ");
    LeadFreeMaps(BareAfterDash(gap, x), ": ");
    KeyMaps(YesNoColon, key, u0, u0, k0, k0);
    KeyMaps(YesNoList, key, u0, u0, k0, k0);
    KeyMaps(QuotedAfterColon(x), key, u0, u0, k0, k0);
    KeyMaps(BareAfterColon(x), key, u0, ": ", k0, k1);
    KeyMaps(QuotedAfterDash(gap, x), key, ": ", ": ", k1, k1);
    KeyMaps(BareAfterDash(gap, x), key, ": ", ": ", k1, k1);
    SanitizeMaps(k0, k0, k0, k0, k1, k1, k1, post, x, gap);
  }

  /** Behind ": ", text that does not start with the word's underscore is copied by the
      bare step. */
  lemma BareColonKept(x: string, key: string, b: string)
    requires PlainWord(x) && NoLeadChar(key) && (b == [] || b[0] != '_')
    ensures ReplaceAll(BareAfterColon(x), key + ": " + b) == key + ": " + ReplaceAll(BareAfterColon(x), b)
  {
    ColonNoWord(x, b);
    var a := ": ";
    assert a[1..] == " ";
    FirstOnlyLead(BareAfterColon(x), a, b);
    KeyStep(BareAfterColon(x), key, a, a, b);
  }

  /** The six steps on a key, ": " and the quoted word: the word and its quotes go. What
      follows must not start with an underscore, or the bare step would remove a word the
      quoted step left behind. */
  lemma ColonQuotedWordSanitized(key: string, q1: char, q2: char, post: string, x: string, gap: char -> bool)
    requires NoLeadChar(key) && PlainWord(x) && IsQuote(q1) && IsQuote(q2) && (post == [] || post[0] != '_')
    ensures Sanitize(key + ": " + ([q1] + x + [q2]) + post, x, gap) == key + ": " + Sanitize(post, x, gap)
  {
    var u0 := ": " + ([q1] + x + [q2]);
    var k0 := key + ": " + ([q1] + x + [q2]);
    var k1 := key + ": ";
    assert k0 == key + u0;
    QuotedColonMaps(x, q1, q2);
    LeadFreeMaps(YesNoList, u0);
    KeyMaps(YesNoColon, key, u0, u0, k0, k0);
    KeyMaps(YesNoList, key, u0, u0, k0, k0);
    KeyMaps(QuotedAfterColon(x), key, u0, ": ", k0, k1);
    var b1 := ReplaceAll(YesNoColon, post);
    var b2 := ReplaceAll(YesNoList, b1);
    var b3 := ReplaceAll(QuotedAfterColon(x), b2);
    var b4 := ReplaceAll(BareAfterColon(x), b3);
    var b5 := ReplaceAll(QuotedAfterDash(gap, x), b4);
    if post != [] {
      ReplaceAllFirst(YesNoColon, post);
      ReplaceAllFirst(YesNoList, b1);
      ReplaceAllFirst(QuotedAfterColon(x), b2);
    }
    BareColonKept(x, key, b3);
    LeadFree(QuotedAfterDash(gap, x), k1, b4);
    LeadFree(BareAfterDash(gap, x), k1, b5);
    assert ReplaceAll(YesNoColon, k0 + post) == k0 + b1;
    assert ReplaceAll(YesNoList, k0 + b1) == k0 + b2;
    assert ReplaceAll(QuotedAfterColon(x), k0 + b2) == k1 + b3;
  }

  /** After a key, ": " and the empty-note placeholder, quoted with any two quotes or bare,
      the placeholder goes and ": " stays; the text after it is cleaned as if it stood
      alone. A quoted placeholder must not be followed by an underscore. */
  lemma RemovesPlaceholder(key: string, quoted: bool, q1: char, q2: char, post: string)
    requires NoLeadChar(key)
    requires quoted ==> IsQuote(q1) && IsQuote(q2) && (post == [] || post[0] != '_')
    ensures var body := if quoted then [q1] + Placeholder + [q2] else Placeholder;
            && SanitizeYamlText(key + ": " + body + post) == key + ": " + SanitizeYamlText(post)
            && SanitizeYamlTextAsWritten(key + ": " + body + post) == key + ": " + SanitizeYamlTextAsWritten(post)
  {
    PlaceholderChars();
    if quoted {
      ColonQuotedWordSanitized(key, q1, q2, post, Placeholder, IsJsWhitespace);
      ColonQuotedWordSanitized(key, q1, q2, post, Placeholder, IsLetterS);
    } else {
      ColonBareWordSanitized(key, post, Placeholder, IsJsWhitespace);
      ColonBareWordSanitized(key, post, Placeholder, IsLetterS);
    }
  }
}
