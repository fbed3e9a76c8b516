/** Character and string helpers shared by the models of the TypeScript, JavaScript,
    Python and C# sources: ECMAScript white space and `trim`, ASCII case mapping,
    prefix/suffix/substring tests, `split`/`join` on one separator and decimal rendering. */
module Text {

  /** An optional value: absent (`None`, `null`, `undefined`) or present. */
  datatype Option<T> = None | Some(value: T)

  /** ECMAScript WhiteSpace and LineTerminator code points: what `String.prototype.trim`
      strips and what the regular-expression class `\s` matches. */
  predicate IsJsWhitespace(c: char) {
    || c == '\t' || c == '\n' || c == '\U{000B}' || c == '\U{000C}' || c == '\r' || c == ' '
    || c == '\U{00A0}' || c == '\U{1680}' || ('\U{2000}' <= c <= '\U{200A}')
    || c == '\U{2028}' || c == '\U{2029}' || c == '\U{202F}' || c == '\U{205F}'
    || c == '\U{3000}' || c == '\U{FEFF}'
  }

  predicate AllWhitespace(s: string) {
    forall i :: 0 <= i < |s| ==> IsJsWhitespace(s[i])
  }

  /** Drops the leading white space. */
  function TrimStart(s: string): (r: string)
    ensures |r| <= |s| && r == s[|s| - |r|..]
    ensures r == [] || !IsJsWhitespace(r[0])
    ensures AllWhitespace(s[..|s| - |r|])
  {
    if s != [] && IsJsWhitespace(s[0]) then TrimStart(s[1..]) else s
  }

  /** Drops the trailing white space. */
  function TrimEnd(s: string): (r: string)
    ensures |r| <= |s| && r == s[..|r|]
    ensures r == [] || !IsJsWhitespace(r[|r| - 1])
    ensures AllWhitespace(s[|r|..])
  {
    if s != [] && IsJsWhitespace(s[|s| - 1]) then TrimEnd(s[..|s| - 1]) else s
  }

  /** `String.prototype.trim`. */
  function Trim(s: string): string {
    TrimEnd(TrimStart(s))
  }

  /** `!s.trim()`: the string is empty or all white space. */
  predicate IsBlank(s: string) {
    Trim(s) == []
  }

  lemma TrimStartOfTrimmed(s: string)
    requires s == [] || !IsJsWhitespace(s[0])
    ensures TrimStart(s) == s
  {
  }

  /** A trimmed string starts and ends with a non-space and is the middle of the input,
      with only white space cut from either side. */
  lemma TrimShape(s: string)
    ensures Trim(s) == [] || (!IsJsWhitespace(Trim(s)[0]) && !IsJsWhitespace(Trim(s)[|Trim(s)| - 1]))
    ensures exists i, j :: 0 <= i <= j <= |s| && Trim(s) == s[i..j] && AllWhitespace(s[..i]) && AllWhitespace(s[j..])
  {
    TrimEnds(s);
    TrimMiddle(s);
  }

  lemma TrimEnds(s: string)
    ensures Trim(s) == [] || (!IsJsWhitespace(Trim(s)[0]) && !IsJsWhitespace(Trim(s)[|Trim(s)| - 1]))
  {
    var t := TrimStart(s);
    var r := TrimEnd(t);
    if r != [] {
      assert r[0] == t[0];
    }
  }

  lemma TrimMiddle(s: string)
    ensures exists i, j :: 0 <= i <= j <= |s| && Trim(s) == s[i..j] && AllWhitespace(s[..i]) && AllWhitespace(s[j..])
  {
    var t := TrimStart(s);
    var i := |s| - |t|;
    var r := TrimEnd(t);
    assert r == s[i..i + |r|];
    assert s[i + |r|..] == t[|r|..];
  }

  /** A string that neither starts nor ends with white space is its own trim. */
  lemma TrimOfTrimmed(n: string)
    requires n != [] && !IsJsWhitespace(n[0]) && !IsJsWhitespace(n[|n| - 1])
    ensures Trim(n) == n && !IsBlank(n)
  {
    TrimStartOfTrimmed(n);
  }

  /** Trimming is idempotent. */
  lemma TrimIdempotent(s: string)
    ensures Trim(Trim(s)) == Trim(s)
  {
    var r := Trim(s);
    TrimShape(s);
    TrimStartOfTrimmed(r);
  }

  /** A string is blank exactly when it holds nothing but white space. */
  lemma BlankIffAllWhitespace(s: string)
    ensures IsBlank(s) <==> AllWhitespace(s)
  {
    var t := TrimStart(s);
    if t != [] {
      assert t[0] == s[|s| - |t|];
    } else {
      assert s[..|s|] == s;
    }
  }

  predicate IsAsciiLower(c: char) { 'a' <= c <= 'z' }
  predicate IsAsciiUpper(c: char) { 'A' <= c <= 'Z' }
  predicate IsAsciiDigit(c: char) { '0' <= c <= '9' }
  predicate IsAsciiLetter(c: char) { IsAsciiLower(c) || IsAsciiUpper(c) }
  predicate IsAsciiAlnum(c: char) { IsAsciiLetter(c) || IsAsciiDigit(c) }

  function UpperChar(c: char): (u: char)
    ensures !IsAsciiLower(u)
    ensures IsAsciiUpper(u) <==> IsAsciiLetter(c)
    ensures !IsAsciiLetter(c) ==> u == c
  {
    if IsAsciiLower(c) then (c as int - 32) as char else c
  }

  function LowerChar(c: char): (l: char)
    ensures !IsAsciiUpper(l)
    ensures IsAsciiLower(l) <==> IsAsciiLetter(c)
    ensures !IsAsciiLetter(c) ==> l == c
  {
    if IsAsciiUpper(c) then (c as int + 32) as char else c
  }

  /** Upper-casing letter by letter (ASCII letters only; see README). */
  function Upper(s: string): (r: string)
    ensures |r| == |s|
    ensures forall i :: 0 <= i < |s| ==> r[i] == UpperChar(s[i])
  {
    seq(|s|, i requires 0 <= i < |s| => UpperChar(s[i]))
  }

  /** Lower-casing letter by letter (ASCII letters only; see README). */
  function Lower(s: string): (r: string)
    ensures |r| == |s|
    ensures forall i :: 0 <= i < |s| ==> r[i] == LowerChar(s[i])
  {
    seq(|s|, i requires 0 <= i < |s| => LowerChar(s[i]))
  }

  /** A string without upper-case letters is its own lower-case form. */
  lemma LowerOfNoUpper(s: string)
    requires forall i :: 0 <= i < |s| ==> !IsAsciiUpper(s[i])
    ensures Lower(s) == s
  {
    SameElements(Lower(s), s);
  }

  predicate StartsWith(s: string, prefix: string) {
    |prefix| <= |s| && s[..|prefix|] == prefix
  }

  predicate EndsWith(s: string, suffix: string) {
    |suffix| <= |s| && s[|s| - |suffix|..] == suffix
  }

  /** `sub` occurs in `s` (Python `in`, JavaScript `includes`). */
  predicate Contains(s: string, sub: string)
    decreases |s|
  {
    StartsWith(s, sub) || (s != [] && Contains(s[1..], sub))
  }

  /** `sub` occurs in `s` starting at index `i`. */
  predicate OccursAt(s: string, sub: string, i: int) {
    0 <= i <= |s| - |sub| && s[i..i + |sub|] == sub
  }

  /** The recursive substring test agrees with "occurs at some index". */
  lemma {:induction false} ContainsIff(s: string, sub: string)
    ensures Contains(s, sub) <==> exists i :: OccursAt(s, sub, i)
    decreases |s|
  {
    if StartsWith(s, sub) {
      assert OccursAt(s, sub, 0);
    } else if s != [] {
      ContainsIff(s[1..], sub);
      if exists i :: OccursAt(s, sub, i) {
        var i :| OccursAt(s, sub, i);
        assert i != 0;
        assert s[1..][i - 1..i - 1 + |sub|] == s[i..i + |sub|];
        assert OccursAt(s[1..], sub, i - 1);
      }
      if Contains(s[1..], sub) {
        var j :| OccursAt(s[1..], sub, j);
        assert s[1..][j..j + |sub|] == s[j + 1..j + 1 + |sub|];
        assert OccursAt(s, sub, j + 1);
      }
    }
  }

  /** Anything placed around an occurrence keeps it an occurrence. */
  lemma ContainsInContext(pre: string, sub: string, post: string)
    ensures Contains(pre + sub + post, sub)
  {
    var s := pre + sub + post;
    assert s[|pre|..|pre| + |sub|] == sub;
    assert OccursAt(s, sub, |pre|);
    ContainsIff(s, sub);
  }

  /** A word at the start of a text occurs in it. */
  lemma ContainsAtStart(sub: string, post: string)
    ensures Contains(sub + post, sub)
  {
    assert StartsWith(sub + post, sub);
  }

  /** Text appended after an occurrence keeps it an occurrence. */
  lemma ContainsExtended(s: string, sub: string, t: string)
    requires Contains(s, sub)
    ensures Contains(s + t, sub)
  {
    ContainsIff(s, sub);
    var i :| OccursAt(s, sub, i);
    assert (s + t)[i..i + |sub|] == s[i..i + |sub|];
    assert OccursAt(s + t, sub, i);
    ContainsIff(s + t, sub);
  }

  /** `s.split(sep)` for a one-character separator: the pieces between separators,
      at least one piece. */
  function Split(s: string, sep: char): (parts: seq<string>)
    ensures |parts| >= 1
    ensures forall k :: 0 <= k < |parts| ==> sep !in parts[k]
    decreases |s|
  {
    if s == [] then [""]
    else if s[0] == sep then [""] + Split(s[1..], sep)
    else
      var rest := Split(s[1..], sep);
      [[s[0]] + rest[0]] + rest[1..]
  }

  /** `parts.join(sep)`. */
  function Join(parts: seq<string>, sep: string): string
    decreases |parts|
  {
    if parts == [] then ""
    else if |parts| == 1 then parts[0]
    else parts[0] + sep + Join(parts[1..], sep)
  }

  /** Joining after an empty first piece starts with the separator. */
  lemma JoinAfterEmpty(rest: seq<string>, sep: string)
    requires rest != []
    ensures Join([""] + rest, sep) == sep + Join(rest, sep)
  {
    assert ([""] + rest)[1..] == rest;
  }

  /** Joining after a character put in front of the first piece starts with that
      character. */
  lemma JoinAfterChar(c: char, rest: seq<string>, sep: string)
    requires rest != []
    ensures Join([[c] + rest[0]] + rest[1..], sep) == [c] + Join(rest, sep)
  {
    var parts := [[c] + rest[0]] + rest[1..];
    assert parts[0] == [c] + rest[0];
    assert parts[1..] == rest[1..];
    if |rest| == 1 {
      assert parts == [[c] + rest[0]];
    }
  }

  /** Splitting on a character and joining with it gives the original string back. */
  lemma {:induction false} JoinSplit(s: string, sep: char)
    ensures Join(Split(s, sep), [sep]) == s
    decreases |s|
  {
    if s != [] {
      JoinSplit(s[1..], sep);
      assert s == [s[0]] + s[1..];
      if s[0] == sep {
        JoinAfterEmpty(Split(s[1..], sep), [sep]);
      } else {
        JoinAfterChar(s[0], Split(s[1..], sep), [sep]);
      }
    }
  }

  function DigitChar(d: nat): (c: char)
    requires d < 10
    ensures IsAsciiDigit(c)
  {
    ('0' as int + d) as char
  }

  /** Decimal rendering of a natural number (Python `str`, `f"{n}"`, JavaScript template). */
  function NatToString(n: nat): (r: string)
    ensures |r| >= 1
    ensures forall i :: 0 <= i < |r| ==> IsAsciiDigit(r[i])
    ensures DecimalValue(r) == n
  {
    if n < 10 then [DigitChar(n)] else NatToString(n / 10) + [DigitChar(n % 10)]
  }

  /** The number a string of decimal digits spells. */
  function DecimalValue(s: string): nat
    requires forall i :: 0 <= i < |s| ==> IsAsciiDigit(s[i])
  {
    if s == [] then 0 else 10 * DecimalValue(s[..|s| - 1]) + DigitValue(s[|s| - 1])
  }

  function DigitValue(c: char): nat
    requires IsAsciiDigit(c)
  {
    c as int - '0' as int
  }

  /** Distinct numbers render differently. */
  lemma NatToStringInjective(m: nat, n: nat)
    requires NatToString(m) == NatToString(n)
    ensures m == n
  {
  }

  /** Drops the leading run of characters of a class. */
  function SkipRun(s: string, inClass: char -> bool): (r: string)
    ensures |r| <= |s| && r == s[|s| - |r|..]
    ensures r == [] || !inClass(r[0])
    ensures forall i :: 0 <= i < |s| - |r| ==> inClass(s[i])
  {
    if s != [] && inClass(s[0]) then SkipRun(s[1..], inClass) else s
  }

  /** A global regular-expression replacement `s.replace(/[class]+/g, rep)`: every maximal
      run of characters of the class becomes the single character `rep`. */
  function ReplaceRuns(s: string, inClass: char -> bool, rep: char): (r: string)
    ensures forall c :: c in r ==> c == rep || (c in s && !inClass(c))
    ensures r == [] <==> s == []
    decreases |s|
  {
    if s == [] then []
    else if inClass(s[0]) then [rep] + ReplaceRuns(SkipRun(s[1..], inClass), inClass, rep)
    else [s[0]] + ReplaceRuns(s[1..], inClass, rep)
  }

  /** The characters of `s` that satisfy `keep`, in order (`[...s].filter(keep)`). */
  function Keep(s: string, keep: char -> bool): (r: string)
    ensures |r| <= |s|
  {
    if s == [] then [] else (if keep(s[0]) then [s[0]] else []) + Keep(s[1..], keep)
  }

  /** Filtering distributes over concatenation. */
  lemma {:induction false} KeepAppend(a: string, b: string, keep: char -> bool)
    ensures Keep(a + b, keep) == Keep(a, keep) + Keep(b, keep)
    decreases |a|
  {
    if a != [] {
      assert (a + b)[1..] == a[1..] + b;
      KeepAppend(a[1..], b, keep);
    } else {
      assert a + b == b;
    }
  }

  /** A text none of whose characters is kept filters to nothing. */
  lemma {:induction false} KeepNone(s: string, keep: char -> bool)
    requires forall i :: 0 <= i < |s| ==> !keep(s[i])
    ensures Keep(s, keep) == []
    decreases |s|
  {
    if s != [] {
      KeepNone(s[1..], keep);
    }
  }

  /** Trimming removes only white space, so a filter that keeps no white space sees the
      same characters before and after. */
  lemma KeepTrim(s: string, keep: char -> bool)
    requires forall c :: IsJsWhitespace(c) ==> !keep(c)
    ensures Keep(Trim(s), keep) == Keep(s, keep)
  {
    TrimShape(s);
    var i, j :| 0 <= i <= j <= |s| && Trim(s) == s[i..j] && AllWhitespace(s[..i]) && AllWhitespace(s[j..]);
    var m := s[i..j];
    SplitAround(s, i, j);
    KeepWhitespace(s[..i], keep);
    KeepWhitespace(s[j..], keep);
    KeepAppend(s[..i] + m, s[j..], keep);
    KeepAppend(s[..i], m, keep);
    EmptyAround(Keep(m, keep));
  }

  lemma EmptyAround<T>(x: seq<T>)
    ensures [] + x + [] == x
  {
  }

  lemma SplitAround<T>(s: seq<T>, i: nat, j: nat)
    requires i <= j <= |s|
    ensures s == s[..i] + s[i..j] + s[j..]
  {
  }

  lemma KeepWhitespace(w: string, keep: char -> bool)
    requires forall c :: IsJsWhitespace(c) ==> !keep(c)
    requires AllWhitespace(w)
    ensures Keep(w, keep) == []
  {
    KeepNone(w, keep);
  }

  /** Replacing runs keeps, in order, every character that a filter keeps, when the filter
      keeps no class character and not `rep`: the characters outside the class survive
      unchanged and in their order, and only runs of the class become `rep`. */
  lemma {:induction false} ReplaceRunsKeeps(s: string, inClass: char -> bool, rep: char, keep: char -> bool)
    requires !keep(rep)
    requires forall c :: inClass(c) ==> !keep(c)
    ensures Keep(ReplaceRuns(s, inClass, rep), keep) == Keep(s, keep)
    decreases |s|
  {
    if s != [] {
      ConsSplit(s, []);
      assert s == [s[0]] + s[1..];
      if inClass(s[0]) {
        var t := SkipRun(s[1..], inClass);
        ReplaceRunsKeeps(t, inClass, rep, keep);
        KeepSkipRun(s[1..], inClass, keep);
        KeepCons(s[0], s[1..], keep);
        KeepCons(rep, ReplaceRuns(t, inClass, rep), keep);
      } else {
        ReplaceRunsKeeps(s[1..], inClass, rep, keep);
        ReplaceRunsCons(s[0], s[1..], inClass, rep);
        KeepCons(s[0], s[1..], keep);
        KeepCons(s[0], ReplaceRuns(s[1..], inClass, rep), keep);
      }
    }
  }

  lemma KeepHead(t: string, keep: char -> bool)
    requires t != [] && keep(t[0])
    ensures Keep(t, keep) != []
  {
  }

  lemma KeepCons(c: char, x: string, keep: char -> bool)
    ensures Keep([c] + x, keep) == (if keep(c) then [c] else []) + Keep(x, keep)
  {
    var s := [c] + x;
    assert s[0] == c && s[1..] == x;
  }

  /** Skipping a run of class characters drops nothing a filter keeps, when the filter keeps
      no class character. */
  lemma KeepSkipRun(u: string, inClass: char -> bool, keep: char -> bool)
    requires forall c :: inClass(c) ==> !keep(c)
    ensures Keep(SkipRun(u, inClass), keep) == Keep(u, keep)
  {
    var t := SkipRun(u, inClass);
    var p := u[..|u| - |t|];
    SplitTwo(u, |u| - |t|);
    forall i | 0 <= i < |p| ensures !keep(p[i]) {
      assert p[i] == u[i];
      assert inClass(u[i]);
    }
    KeepNone(p, keep);
    KeepAppend(p, t, keep);
    EmptyLeft(Keep(t, keep));
  }

  lemma SplitTwo<T>(s: seq<T>, i: nat)
    requires i <= |s|
    ensures s == s[..i] + s[i..]
  {
  }

  /** A prefix without class characters is copied in front of the replaced rest. */
  lemma {:induction false} ReplaceRunsPlainPrefix(a: string, b: string, inClass: char -> bool, rep: char)
    requires forall i :: 0 <= i < |a| ==> !inClass(a[i])
    ensures ReplaceRuns(a + b, inClass, rep) == a + ReplaceRuns(b, inClass, rep)
    decreases |a|
  {
    if a == [] {
      EmptyLeft(b);
      EmptyLeft(ReplaceRuns(b, inClass, rep));
    } else {
      ConsSplit(a, b);
      ReplaceRunsPlainPrefix(a[1..], b, inClass, rep);
      ReplaceRunsCons(a[0], a[1..] + b, inClass, rep);
      ConsSplit(a, ReplaceRuns(b, inClass, rep));
    }
  }

  /** A character outside the class is copied in front of the replaced rest. */
  lemma ReplaceRunsCons(c: char, t: string, inClass: char -> bool, rep: char)
    requires !inClass(c)
    ensures ReplaceRuns([c] + t, inClass, rep) == [c] + ReplaceRuns(t, inClass, rep)
  {
    var s := [c] + t;
    assert s[0] == c && s[1..] == t;
  }

  lemma JoinedEnds<T>(w1: seq<T>, sep: T, w2: seq<T>)
    requires w1 != [] && w2 != []
    ensures var j := w1 + [sep] + w2; j[0] == w1[0] && j[|j| - 1] == w2[|w2| - 1]
  {
  }

  lemma EmptyRight<T>(b: seq<T>)
    ensures b + [] == b
  {
  }

  lemma EmptyLeft<T>(b: seq<T>)
    ensures [] + b == b
  {
  }

  lemma ConsSplit<T>(a: seq<T>, b: seq<T>)
    requires a != []
    ensures a + b == [a[0]] + (a[1..] + b)
  {
  }

  /** A text without class characters is left as it is. */
  lemma ReplaceRunsPlain(w: string, inClass: char -> bool, rep: char)
    requires forall i :: 0 <= i < |w| ==> !inClass(w[i])
    ensures ReplaceRuns(w, inClass, rep) == w
  {
    ReplaceRunsPlainPrefix(w, [], inClass, rep);
    assert w + [] == w;
  }

  /** Two texts without class characters around one class character: that character
      becomes `rep`. */
  lemma ReplaceRunsOneSeparator(w1: string, sep: char, w2: string, inClass: char -> bool, rep: char)
    requires inClass(sep)
    requires forall i :: 0 <= i < |w1| ==> !inClass(w1[i])
    requires forall i :: 0 <= i < |w2| ==> !inClass(w2[i])
    ensures ReplaceRuns(w1 + [sep] + w2, inClass, rep) == w1 + [rep] + w2
  {
    var d := [sep] + w2;
    AssocCons(w1, sep, w2);
    ReplaceRunsPlainPrefix(w1, d, inClass, rep);
    ReplaceRunsSeparatorFirst(sep, w2, inClass, rep);
    AssocCons(w1, rep, w2);
  }

  lemma ReplaceRunsSeparatorFirst(sep: char, w2: string, inClass: char -> bool, rep: char)
    requires inClass(sep)
    requires forall i :: 0 <= i < |w2| ==> !inClass(w2[i])
    ensures ReplaceRuns([sep] + w2, inClass, rep) == [rep] + w2
  {
    var d := [sep] + w2;
    assert d[0] == sep && d[1..] == w2;
    SkipRunNone(w2, inClass);
    ReplaceRunsPlain(w2, inClass, rep);
  }

  lemma AssocCons<T>(a: seq<T>, x: T, b: seq<T>)
    ensures a + [x] + b == a + ([x] + b)
  {
  }

  /** After the replacement (with `rep` itself of the class) a class character is always
      `rep` and is never followed by another class character. */
  predicate RunsCollapsed(r: string, inClass: char -> bool, rep: char) {
    forall i :: 0 <= i < |r| && inClass(r[i]) ==> r[i] == rep && (i + 1 < |r| ==> !inClass(r[i + 1]))
  }

  lemma {:induction false} ReplaceRunsCollapses(s: string, inClass: char -> bool, rep: char)
    requires inClass(rep)
    ensures RunsCollapsed(ReplaceRuns(s, inClass, rep), inClass, rep)
    decreases |s|
  {
    var r := ReplaceRuns(s, inClass, rep);
    if s == [] {
    } else if inClass(s[0]) {
      var t := SkipRun(s[1..], inClass);
      ReplaceRunsCollapses(t, inClass, rep);
      var rt := ReplaceRuns(t, inClass, rep);
      assert r == [rep] + rt;
      if rt != [] {
        assert t != [] && !inClass(t[0]);
        ReplaceRunsHead(t, inClass, rep);
      }
    } else {
      ReplaceRunsCollapses(s[1..], inClass, rep);
      assert r == [s[0]] + ReplaceRuns(s[1..], inClass, rep);
    }
  }

  /** A string that does not start with a class character keeps its first character. */
  lemma ReplaceRunsHead(s: string, inClass: char -> bool, rep: char)
    requires s != [] && !inClass(s[0])
    ensures ReplaceRuns(s, inClass, rep)[0] == s[0]
  {
  }

  lemma RunsCollapsedTail(s: string, inClass: char -> bool, rep: char)
    requires s != [] && RunsCollapsed(s, inClass, rep)
    ensures RunsCollapsed(s[1..], inClass, rep)
  {
    var t := s[1..];
    forall i | 0 <= i < |t| && inClass(t[i])
      ensures t[i] == rep && (i + 1 < |t| ==> !inClass(t[i + 1]))
    {
      assert t[i] == s[i + 1];
      if i + 1 < |t| {
        assert t[i + 1] == s[i + 2];
      }
    }
  }

  /** Every slice of a collapsed string is collapsed. */
  lemma CollapsedSlice(s: string, i: nat, j: nat, inClass: char -> bool, rep: char)
    requires i <= j <= |s| && RunsCollapsed(s, inClass, rep)
    ensures RunsCollapsed(s[i..j], inClass, rep)
  {
    var t := s[i..j];
    forall k | 0 <= k < |t| && inClass(t[k])
      ensures t[k] == rep && (k + 1 < |t| ==> !inClass(t[k + 1]))
    {
      assert t[k] == s[i + k];
      if k + 1 < |t| {
        assert t[k + 1] == s[i + k + 1];
      }
    }
  }

  /** A string whose runs are already collapsed is left as it is. */
  lemma {:induction false} ReplaceRunsOfCollapsed(s: string, inClass: char -> bool, rep: char)
    requires RunsCollapsed(s, inClass, rep)
    ensures ReplaceRuns(s, inClass, rep) == s
    decreases |s|
  {
    if s != [] {
      var t := s[1..];
      RunsCollapsedTail(s, inClass, rep);
      ReplaceRunsOfCollapsed(t, inClass, rep);
      if inClass(s[0]) {
        CollapsedHead(s, inClass, rep);
        SkipRunNone(t, inClass);
        assert ReplaceRuns(s, inClass, rep) == [rep] + ReplaceRuns(t, inClass, rep);
      }
      assert s == [s[0]] + t;
    }
  }

  /** In a collapsed string a leading class character is `rep`, and the next one is not of
      the class. */
  lemma CollapsedHead(s: string, inClass: char -> bool, rep: char)
    requires s != [] && inClass(s[0]) && RunsCollapsed(s, inClass, rep)
    ensures s[0] == rep && (s[1..] == [] || !inClass(s[1..][0]))
  {
    assert 0 < |s| && inClass(s[0]);
    if |s| > 1 {
      assert s[1..][0] == s[1];
    }
  }

  lemma SkipRunNone(s: string, inClass: char -> bool)
    requires s == [] || !inClass(s[0])
    ensures SkipRun(s, inClass) == s
  {
  }

  /** A sequence around one of its elements. */
  lemma SplitAt<T>(s: seq<T>, i: nat)
    requires i < |s|
    ensures s == s[..i] + [s[i]] + s[i + 1..]
  {
  }

  /** Replacing one element keeps what surrounds it. */
  lemma UpdateSplit<T>(s: seq<T>, i: nat, v: T)
    requires i < |s|
    ensures s[i := v] == s[..i] + [v] + s[i + 1..]
  {
  }

  /** Sequences with the same elements at the same places are equal. */
  lemma SameElements<T>(a: seq<T>, b: seq<T>)
    requires |a| == |b| && forall i :: 0 <= i < |a| ==> a[i] == b[i]
    ensures a == b
  {
  }
}
