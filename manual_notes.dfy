/** The manual note-section editor of the browser manifest builder: note keys move between
    a sorted list of available keys and a structure of main sections, each with child
    sections. The note sections are then read off the structure, or off one of two fixed
    tables, and put into section order. */
module ManualNotes {
  import opened Text
  import opened NoteSections
  import opened WebNoteSections

  /** Every key the editor offers, in display order (unlike the section order, it holds
      "plan"). */
  const NoteKeys: seq<string> := [
    "hpi", "chief-complaint", "past-medical-history", "assessment", "plan", "medications",
    "allergies", "review-of-systems", "physical-exam", "procedures", "results"
  ]

  predicate Distinct(s: seq<string>) {
    forall i, j :: 0 <= i < j < |s| ==> s[i] != s[j]
  }

  lemma NoteKeysDistinct()
    ensures Distinct(NoteKeys) && |NoteKeys| == 11
  {
  }

  /** `Array.prototype.indexOf`: the first position of `x`, or -1. */
  function IndexOf(s: seq<string>, x: string): (r: int)
    ensures -1 <= r < |s|
    ensures r == -1 <==> x !in s
    ensures r >= 0 ==> s[r] == x && x !in s[..r]
  {
    if s == [] then -1
    else if s[0] == x then 0
    else
      var i := IndexOf(s[1..], x);
      if i == -1 then -1
      else
        assert s[..i + 1] == [s[0]] + s[1..][..i];
        i + 1
  }

  /** The sort key of `sortAvailableKeys`: the position among the note keys, -1 for others. */
  function Rank(k: string): int {
    IndexOf(NoteKeys, k)
  }

  lemma RankOfNoteKey(i: nat)
    requires i < |NoteKeys|
    ensures Rank(NoteKeys[i]) == i
  {
    NoteKeysDistinct();
    assert NoteKeys[i] in NoteKeys;
  }

  predicate SortedByRank(s: seq<string>) {
    forall i, j :: 0 <= i < j < |s| ==> Rank(s[i]) <= Rank(s[j])
  }

  /** `filter(item => item !== x)`. */
  function Remove(s: seq<string>, x: string): (r: seq<string>)
    ensures multiset(r) == multiset(s)[x := 0]
    ensures forall y :: y in r <==> y in s && y != x
  {
    if s == [] then []
    else
      assert s == [s[0]] + s[1..];
      (if s[0] == x then [] else [s[0]]) + Remove(s[1..], x)
  }

  /** `filter((value, index, array) => array.indexOf(value) === index)`: the first occurrence
      of every value, in order. */
  function Dedup(s: seq<string>): (r: seq<string>)
    ensures forall y :: y in r <==> y in s
    ensures Distinct(r)
  {
    if s == [] then []
    else
      var front := s[..|s| - 1];
      var d := Dedup(front);
      assert forall y :: y in s <==> y in front || y == s[|s| - 1] by {
        assert s == front + [s[|s| - 1]];
      }
      if s[|s| - 1] in front then d else d + [s[|s| - 1]]
  }

  /** A sequence without repeats is its own deduplication. */
  lemma {:induction false} DedupDistinct(s: seq<string>)
    requires Distinct(s)
    ensures Dedup(s) == s
  {
    if s != [] {
      var front := s[..|s| - 1];
      assert Distinct(front);
      DedupDistinct(front);
      assert s[|s| - 1] !in front;
      assert s == front + [s[|s| - 1]];
    }
  }

  /** The keys that are not note keys, in their original order. */
  function Unranked(s: seq<string>): (r: seq<string>)
    ensures forall i :: 0 <= i < |r| ==> r[i] !in NoteKeys
  {
    if s == [] then [] else (if s[0] in NoteKeys then [] else [s[0]]) + Unranked(s[1..])
  }

  function Repeat(k: string, n: nat): (r: seq<string>)
    ensures |r| == n && forall i :: 0 <= i < n ==> r[i] == k
  {
    if n == 0 then [] else [k] + Repeat(k, n - 1)
  }

  /** Every copy of each note key from position `i` on, in note-key order. */
  function Grouped(i: nat, s: seq<string>): seq<string>
    requires i <= |NoteKeys|
    decreases |NoteKeys| - i
  {
    if i == |NoteKeys| then [] else Repeat(NoteKeys[i], multiset(s)[NoteKeys[i]]) + Grouped(i + 1, s)
  }

  /** The outcome of `availableKeys.sort((a, b) => NOTE_KEYS.indexOf(a) - NOTE_KEYS.indexOf(b))`:
      the sort is stable, so the keys of rank -1 come first in their original order,
      followed by the note keys in note-key order. */
  function SortByNoteOrder(s: seq<string>): seq<string> {
    Unranked(s) + Grouped(0, s)
  }

  lemma {:induction false} UnrankedCount(s: seq<string>, x: string)
    ensures multiset(Unranked(s))[x] == if x in NoteKeys then 0 else multiset(s)[x]
  {
    if s != [] {
      UnrankedCount(s[1..], x);
      assert s == [s[0]] + s[1..];
      if s[0] in NoteKeys {
        assert Unranked(s) == Unranked(s[1..]);
      } else {
        assert Unranked(s) == [s[0]] + Unranked(s[1..]);
      }
    }
  }

  lemma {:induction false} GroupedCount(i: nat, s: seq<string>, x: string)
    requires i <= |NoteKeys|
    ensures multiset(Grouped(i, s))[x] == if x in NoteKeys[i..] then multiset(s)[x] else 0
    decreases |NoteKeys| - i
  {
    if i < |NoteKeys| {
      GroupedCount(i + 1, s, x);
      var k := NoteKeys[i];
      RepeatCount(k, multiset(s)[k], x);
      assert NoteKeys[i..] == [k] + NoteKeys[i + 1..];
      NoteKeysDistinct();
      DistinctNotLater(NoteKeys, i);
    }
  }

  lemma DistinctNotLater(s: seq<string>, i: nat)
    requires Distinct(s) && i < |s|
    ensures s[i] !in s[i + 1..]
  {
  }

  lemma {:induction false} RepeatCount(k: string, n: nat, x: string)
    ensures multiset(Repeat(k, n))[x] == if x == k then n else 0
  {
    if n > 0 {
      RepeatCount(k, n - 1, x);
    }
  }

  /** The sort is a permutation. */
  lemma SortPermutes(s: seq<string>)
    ensures multiset(SortByNoteOrder(s)) == multiset(s)
  {
    forall x ensures multiset(SortByNoteOrder(s))[x] == multiset(s)[x] {
      UnrankedCount(s, x);
      GroupedCount(0, s, x);
      assert NoteKeys[0..] == NoteKeys;
    }
  }

  /** Two sorted sequences, the first below some rank and the second above it, concatenate
      to a sorted sequence. */
  lemma SortedAppend(a: seq<string>, b: seq<string>, m: int)
    requires SortedByRank(a) && SortedByRank(b)
    requires forall i :: 0 <= i < |a| ==> Rank(a[i]) <= m
    requires forall j :: 0 <= j < |b| ==> Rank(b[j]) >= m
    ensures SortedByRank(a + b)
  {
    var r := a + b;
    forall i, j | 0 <= i < j < |r| ensures Rank(r[i]) <= Rank(r[j]) {
      if j < |a| {
        assert r[i] == a[i] && r[j] == a[j];
      } else if i < |a| {
        assert r[i] == a[i] && r[j] == b[j - |a|];
      } else {
        assert r[i] == b[i - |a|] && r[j] == b[j - |a|];
      }
    }
  }

  lemma {:induction false} GroupedRanks(i: nat, s: seq<string>)
    requires i <= |NoteKeys|
    ensures forall j :: 0 <= j < |Grouped(i, s)| ==> Rank(Grouped(i, s)[j]) >= i
    ensures SortedByRank(Grouped(i, s))
    decreases |NoteKeys| - i
  {
    if i < |NoteKeys| {
      var rest := Grouped(i + 1, s);
      GroupedRanks(i + 1, s);
      RankOfNoteKey(i);
      var head := Repeat(NoteKeys[i], multiset(s)[NoteKeys[i]]);
      assert Grouped(i, s) == head + rest;
      SortedAppend(head, rest, i);
      var g := head + rest;
      forall j | 0 <= j < |g| ensures Rank(g[j]) >= i {
        if j >= |head| {
          assert g[j] == rest[j - |head|];
        }
      }
    }
  }

  /** The sort puts the keys in note-key order. */
  lemma SortSorts(s: seq<string>)
    ensures SortedByRank(SortByNoteOrder(s))
  {
    GroupedRanks(0, s);
    SortedAppend(Unranked(s), Grouped(0, s), 0);
  }

  /** A sequence holding every note key once has them grouped in note-key order. */
  lemma {:induction false} GroupedOnce(i: nat, s: seq<string>)
    requires i <= |NoteKeys|
    requires forall j :: 0 <= j < |NoteKeys| ==> multiset(s)[NoteKeys[j]] == 1
    ensures Grouped(i, s) == NoteKeys[i..]
    decreases |NoteKeys| - i
  {
    if i < |NoteKeys| {
      GroupedOnce(i + 1, s);
      var k := NoteKeys[i];
      assert Repeat(k, multiset(s)[k]) == [k];
      assert NoteKeys[i..] == [k] + NoteKeys[i + 1..];
    }
  }

  lemma CountOfDistinct(s: seq<string>, i: nat)
    requires Distinct(s) && i < |s|
    ensures multiset(s)[s[i]] == 1
  {
    DistinctAtMostOnce(s);
    assert s[i] in multiset(s);
  }

  lemma {:induction false} DistinctAtMostOnce(s: seq<string>)
    requires Distinct(s)
    ensures forall x :: multiset(s)[x] <= 1
  {
    if s != [] {
      assert Distinct(s[1..]);
      DistinctAtMostOnce(s[1..]);
      assert s == [s[0]] + s[1..];
      assert s[0] !in s[1..];
    }
  }

  lemma {:induction false} AtMostOnceDistinct(s: seq<string>)
    requires forall x :: multiset(s)[x] <= 1
    ensures Distinct(s)
  {
    if s != [] {
      var t := s[1..];
      assert s == [s[0]] + t;
      assert multiset(s) == multiset{s[0]} + multiset(t);
      assert forall x :: multiset(t)[x] <= multiset(s)[x];
      AtMostOnceDistinct(t);
      assert multiset(t)[s[0]] == 0;
      assert s[0] !in t;
      forall i, j | 0 <= i < j < |s| ensures s[i] != s[j] {
        if i > 0 {
          assert s[i] == t[i - 1] && s[j] == t[j - 1];
        } else {
          assert s[j] == t[j - 1];
        }
      }
    }
  }

  lemma {:induction false} UnrankedOfNoteKeysOnly(s: seq<string>)
    requires forall i :: 0 <= i < |s| ==> s[i] in NoteKeys
    ensures Unranked(s) == []
  {
    if s != [] {
      UnrankedOfNoteKeysOnly(s[1..]);
    }
  }

  /** A sequence of note keys, each exactly once, sorts to the note keys. */
  lemma SortEveryKeyOnce(s: seq<string>)
    requires forall i :: 0 <= i < |s| ==> s[i] in NoteKeys
    requires forall j :: 0 <= j < |NoteKeys| ==> multiset(s)[NoteKeys[j]] == 1
    ensures SortByNoteOrder(s) == NoteKeys
  {
    UnrankedOfNoteKeysOnly(s);
    GroupedOnce(0, s);
  }

  /** Resetting sorts the note keys, which leaves them as they are. */
  lemma SortNoteKeys(keys: seq<string>)
    requires keys == NoteKeys
    ensures SortByNoteOrder(keys) == keys
  {
    NoteKeysDistinct();
    forall j | 0 <= j < |keys| ensures multiset(keys)[keys[j]] == 1 {
      CountOfDistinct(keys, j);
    }
    SortEveryKeyOnce(keys);
  }

  /** A main section and its child sections. */
  datatype Node = Node(key: string, children: seq<string>)

  /** The editor's state: the keys still to place and the placed sections. */
  datatype NoteState = NoteState(availableKeys: seq<string>, structure: seq<Node>)

  function NodeKeys(n: Node): seq<string> {
    [n.key] + n.children
  }

  /** Every key the structure holds, main keys and children. */
  function Placed(structure: seq<Node>): seq<string> {
    if structure == [] then [] else Placed(structure[..|structure| - 1]) + NodeKeys(structure[|structure| - 1])
  }

  lemma {:induction false} PlacedConcat(a: seq<Node>, b: seq<Node>)
    ensures Placed(a + b) == Placed(a) + Placed(b)
    decreases |b|
  {
    if b != [] {
      var front := b[..|b| - 1];
      PlacedConcat(a, front);
      assert (a + b)[..|a + b| - 1] == a + front;
      assert (a + b)[|a + b| - 1] == b[|b| - 1];
      assert Placed(b) == Placed(front) + NodeKeys(b[|b| - 1]);
    } else {
      assert a + b == a;
    }
  }

  /** `keyInStructure`. */
  predicate KeyInStructure(structure: seq<Node>, key: string) {
    exists i :: 0 <= i < |structure| && (structure[i].key == key || key in structure[i].children)
  }

  lemma {:induction false} KeyInStructureIffPlaced(structure: seq<Node>, key: string)
    ensures KeyInStructure(structure, key) <==> key in Placed(structure)
    decreases |structure|
  {
    if structure != [] {
      var front := structure[..|structure| - 1];
      var last := structure[|structure| - 1];
      KeyInStructureIffPlaced(front, key);
      assert Placed(structure) == Placed(front) + NodeKeys(last);
      if KeyInStructure(structure, key) {
        var i :| 0 <= i < |structure| && (structure[i].key == key || key in structure[i].children);
        if i < |front| {
          assert front[i] == structure[i];
        }
      }
      if key in Placed(front) {
        var i :| 0 <= i < |front| && (front[i].key == key || key in front[i].children);
        assert structure[i] == front[i];
      }
      assert key in NodeKeys(last) ==> KeyInStructure(structure, key);
    }
  }

  /** `findMainNode` as a position: the first node with that key. */
  function FindMain(structure: seq<Node>, key: string): (r: Option<nat>)
    ensures r.None? <==> forall i :: 0 <= i < |structure| ==> structure[i].key != key
    ensures r.Some? ==> r.value < |structure| && structure[r.value].key == key &&
                        forall i :: 0 <= i < r.value ==> structure[i].key != key
  {
    if structure == [] then None
    else if structure[0].key == key then Some(0)
    else match FindMain(structure[1..], key)
      case None => None
      case Some(i) => Some(i + 1)
  }

  /** The editor's invariant: the available keys are in note-key order, and every note key
      is in exactly one place (available, a main section or one child list) and no other
      key is anywhere. */
  predicate Valid(st: NoteState) {
    && SortedByRank(st.availableKeys)
    && HoldsOnce(st, multiset(NoteKeys))
  }

  /** `addKeysToAvailable`. */
  function AddKeys(available: seq<string>, keys: seq<string>): (r: seq<string>)
    ensures Distinct(r) && SortedByRank(r)
    ensures forall y :: y in r <==> y in available || y in keys
  {
    var d := Dedup(available + keys);
    SortDistinct(d);
    SortByNoteOrder(d)
  }

  /** Sorting keeps a repeat-free sequence free of repeats, with the same members. */
  lemma SortDistinct(d: seq<string>)
    requires Distinct(d)
    ensures Distinct(SortByNoteOrder(d)) && SortedByRank(SortByNoteOrder(d))
    ensures forall y :: y in SortByNoteOrder(d) <==> y in d
  {
    var r := SortByNoteOrder(d);
    SortPermutes(d);
    SortSorts(d);
    DistinctAtMostOnce(d);
    AtMostOnceDistinct(r);
    forall y ensures y in r <==> y in d {
      assert y in r <==> y in multiset(r);
      assert y in d <==> y in multiset(d);
    }
  }

  /** `addMainSection`. */
  function AfterAddMain(st: NoteState, key: string): NoteState {
    if KeyInStructure(st.structure, key) || key !in st.availableKeys then st
    else NoteState(Remove(st.availableKeys, key), st.structure + [Node(key, [])])
  }

  /** `addSubSection`. */
  function AfterAddSub(st: NoteState, parentKey: string, childKey: string): NoteState {
    if KeyInStructure(st.structure, childKey) || childKey !in st.availableKeys then st
    else match FindMain(st.structure, parentKey)
      case None => st
      case Some(i) =>
        var parent := st.structure[i];
        NoteState(Remove(st.availableKeys, childKey),
                  st.structure[i := Node(parent.key, parent.children + [childKey])])
  }

  /** `removeMainSection`. */
  function AfterRemoveMain(st: NoteState, key: string): NoteState {
    match FindMain(st.structure, key)
    case None => st
    case Some(i) =>
      var removed := st.structure[i];
      NoteState(AddKeys(st.availableKeys, NodeKeys(removed)), st.structure[..i] + st.structure[i + 1..])
  }

  /** `removeChildSection`. */
  function AfterRemoveChild(st: NoteState, parentKey: string, childKey: string): NoteState {
    match FindMain(st.structure, parentKey)
    case None => st
    case Some(i) =>
      var parent := st.structure[i];
      NoteState(AddKeys(st.availableKeys, [childKey]),
                st.structure[i := Node(parent.key, Remove(parent.children, childKey))])
  }

  /** Every key of `total` held exactly once, between the available list and the structure. */
  predicate HoldsOnce(st: NoteState, total: multiset<string>) {
    multiset(st.availableKeys) + multiset(Placed(st.structure)) == total
  }

  ghost predicate AtMostOnce(total: multiset<string>) {
    forall x :: total[x] <= 1
  }

  lemma NoteKeysOnce()
    ensures AtMostOnce(multiset(NoteKeys))
  {
    NoteKeysDistinct();
    DistinctAtMostOnce(NoteKeys);
  }

  lemma {:induction false} RemoveSorted(s: seq<string>, x: string)
    requires SortedByRank(s)
    ensures SortedByRank(Remove(s, x))
  {
    if s != [] {
      var t := s[1..];
      assert SortedByRank(t);
      RemoveSorted(t, x);
      var head := if s[0] == x then [] else [s[0]];
      var rt := Remove(t, x);
      forall j | 0 <= j < |rt| ensures Rank(rt[j]) >= Rank(s[0]) {
        assert rt[j] in t;
        var k :| 0 <= k < |t| && t[k] == rt[j];
        assert t[k] == s[k + 1];
      }
      SortedAppend(head, rt, Rank(s[0]));
    }
  }

  /** Replacing one node changes the placed keys by exactly that node's keys. */
  lemma PlacedUpdate(structure: seq<Node>, i: nat, n: Node)
    requires i < |structure|
    ensures multiset(Placed(structure[i := n])) + multiset(NodeKeys(structure[i])) ==
            multiset(Placed(structure)) + multiset(NodeKeys(n))
  {
    var pre, post := structure[..i], structure[i + 1..];
    SplitAt(structure, i);
    UpdateSplit(structure, i, n);
    PlacedConcat(pre + [structure[i]], post);
    PlacedConcat(pre, [structure[i]]);
    PlacedConcat(pre + [n], post);
    PlacedConcat(pre, [n]);
    assert Placed([n]) == NodeKeys(n) by { assert [n][..0] == []; }
    assert Placed([structure[i]]) == NodeKeys(structure[i]) by { assert [structure[i]][..0] == []; }
  }

  /** Removing one node removes exactly that node's keys. */
  lemma PlacedRemoveAt(structure: seq<Node>, i: nat)
    requires i < |structure|
    ensures multiset(Placed(structure)) ==
            multiset(Placed(structure[..i] + structure[i + 1..])) + multiset(NodeKeys(structure[i]))
  {
    var pre, x, post := structure[..i], structure[i], structure[i + 1..];
    SplitAt(structure, i);
    PlacedConcat(pre + [x], post);
    PlacedSnoc(pre, x);
    PlacedConcat(pre, post);
    MultisetMiddle(Placed(pre), NodeKeys(x), Placed(post));
  }

  lemma PlacedSnoc(pre: seq<Node>, x: Node)
    ensures Placed(pre + [x]) == Placed(pre) + NodeKeys(x)
  {
    assert (pre + [x])[..|pre|] == pre;
  }

  lemma MultisetMiddle<T>(a: seq<T>, b: seq<T>, c: seq<T>)
    ensures multiset(a + b + c) == multiset(a + c) + multiset(b)
  {
  }

  /** Adding keys that are held nowhere else makes them available and changes nothing else. */
  lemma AddKeysFresh(available: seq<string>, keys: seq<string>)
    requires AtMostOnce(multiset(available) + multiset(keys))
    ensures multiset(AddKeys(available, keys)) == multiset(available) + multiset(keys)
  {
    var d := available + keys;
    forall x ensures multiset(d)[x] <= 1 {
      assert multiset(d) == multiset(available) + multiset(keys);
    }
    AtMostOnceDistinct(d);
    DedupDistinct(d);
    SortPermutes(d);
  }

  /** Taking one available key out of the list. */
  lemma RemoveOnce(available: seq<string>, placed: multiset<string>, key: string)
    requires AtMostOnce(multiset(available) + placed) && key in available
    ensures multiset(Remove(available, key)) + multiset{key} == multiset(available)
  {
    assert (multiset(available) + placed)[key] <= 1;
    assert multiset(available)[key] == 1;
  }

  lemma AddMainKeeps(st: NoteState, key: string, total: multiset<string>)
    requires HoldsOnce(st, total) && AtMostOnce(total)
    ensures HoldsOnce(AfterAddMain(st, key), total)
  {
    if !KeyInStructure(st.structure, key) && key in st.availableKeys {
      RemoveOnce(st.availableKeys, multiset(Placed(st.structure)), key);
      PlacedConcat(st.structure, [Node(key, [])]);
      assert Placed([Node(key, [])]) == [key] by { assert [Node(key, [])][..0] == []; }
    }
  }

  lemma AddSubKeeps(st: NoteState, parentKey: string, childKey: string, total: multiset<string>)
    requires HoldsOnce(st, total) && AtMostOnce(total)
    ensures HoldsOnce(AfterAddSub(st, parentKey, childKey), total)
  {
    if !KeyInStructure(st.structure, childKey) && childKey in st.availableKeys && FindMain(st.structure, parentKey).Some? {
      var i := FindMain(st.structure, parentKey).value;
      var parent := st.structure[i];
      var s' := st.structure[i := Node(parent.key, parent.children + [childKey])];
      var after := AfterAddSub(st, parentKey, childKey);
      assert after == NoteState(Remove(st.availableKeys, childKey), s');
      RemoveOnce(st.availableKeys, multiset(Placed(st.structure)), childKey);
      AddSubPlaced(st.structure, i, childKey);
    }
  }

  /** Appending a child to one node adds exactly that key to the structure. */
  lemma AddSubPlaced(structure: seq<Node>, i: nat, childKey: string)
    requires i < |structure|
    ensures var parent := structure[i];
            var s' := structure[i := Node(parent.key, parent.children + [childKey])];
            multiset(Placed(s')) == multiset(Placed(structure)) + multiset{childKey}
  {
    var parent := structure[i];
    var n := Node(parent.key, parent.children + [childKey]);
    PlacedUpdate(structure, i, n);
    assert NodeKeys(n) == NodeKeys(parent) + [childKey];
    assert multiset(NodeKeys(n)) == multiset(NodeKeys(parent)) + multiset{childKey};
    Cancel(multiset(Placed(structure[i := n])), multiset(Placed(structure)) + multiset{childKey},
           multiset(NodeKeys(parent)));
  }

  lemma RemoveMainKeeps(st: NoteState, key: string, total: multiset<string>)
    requires HoldsOnce(st, total) && AtMostOnce(total)
    ensures HoldsOnce(AfterRemoveMain(st, key), total)
  {
    if FindMain(st.structure, key).Some? {
      var i := FindMain(st.structure, key).value;
      var removed := st.structure[i];
      var rest := st.structure[..i] + st.structure[i + 1..];
      PlacedRemoveAt(st.structure, i);
      assert total == multiset(st.availableKeys) + multiset(NodeKeys(removed)) + multiset(Placed(rest));
      forall x ensures (multiset(st.availableKeys) + multiset(NodeKeys(removed)))[x] <= 1 {
        assert total[x] <= 1;
      }
      AddKeysFresh(st.availableKeys, NodeKeys(removed));
    }
  }

  lemma RemoveChildKeeps(st: NoteState, parentKey: string, childKey: string, total: multiset<string>)
    requires HoldsOnce(st, total) && AtMostOnce(total)
    requires FindMain(st.structure, parentKey).Some?
    requires childKey in st.structure[FindMain(st.structure, parentKey).value].children
    ensures HoldsOnce(AfterRemoveChild(st, parentKey, childKey), total)
  {
    var i := FindMain(st.structure, parentKey).value;
    var parent := st.structure[i];
    var s' := st.structure[i := Node(parent.key, Remove(parent.children, childKey))];
    var after := AfterRemoveChild(st, parentKey, childKey);
    assert after == NoteState(AddKeys(st.availableKeys, [childKey]), s');
    RemoveChildPlaced(st, i, childKey, total);
    var p' := multiset(Placed(s'));
    assert multiset([childKey]) == multiset{childKey};
    assert multiset(st.availableKeys) + multiset([childKey]) + p' == total;
    AvailablePlusOnce(st.availableKeys, multiset([childKey]), p', total);
    AddKeysFresh(st.availableKeys, [childKey]);
  }

  /** Filtering a held child out of its parent's list removes exactly that one key. */
  lemma RemoveChildPlaced(st: NoteState, i: nat, childKey: string, total: multiset<string>)
    requires HoldsOnce(st, total) && AtMostOnce(total)
    requires i < |st.structure| && childKey in st.structure[i].children
    ensures var parent := st.structure[i];
            var s' := st.structure[i := Node(parent.key, Remove(parent.children, childKey))];
            multiset(Placed(s')) + multiset{childKey} == multiset(Placed(st.structure))
  {
    var parent := st.structure[i];
    var n := Node(parent.key, Remove(parent.children, childKey));
    ChildOnce(st, i, childKey, total);
    assert multiset(NodeKeys(n)) + multiset{childKey} == multiset(NodeKeys(parent)) by {
      assert NodeKeys(parent) == [parent.key] + parent.children;
      assert NodeKeys(n) == [parent.key] + Remove(parent.children, childKey);
    }
    PlacedUpdate(st.structure, i, n);
    Cancel(multiset(Placed(st.structure[i := n])) + multiset{childKey}, multiset(Placed(st.structure)),
           multiset(NodeKeys(n)));
  }

  /** Multiset sums cancel. */
  lemma Cancel(a: multiset<string>, b: multiset<string>, x: multiset<string>)
    requires a + x == b + x
    ensures a == b
  {
    forall y ensures a[y] == b[y] {
      assert (a + x)[y] == (b + x)[y];
    }
  }

  /** A child held in the structure is held exactly once in its parent's child list. */
  lemma ChildOnce(st: NoteState, i: nat, childKey: string, total: multiset<string>)
    requires HoldsOnce(st, total) && AtMostOnce(total)
    requires i < |st.structure| && childKey in st.structure[i].children
    ensures multiset(st.structure[i].children)[childKey] == 1
  {
    var parent := st.structure[i];
    var rest := st.structure[..i] + st.structure[i + 1..];
    PlacedRemoveAt(st.structure, i);
    assert NodeKeys(parent) == [parent.key] + parent.children;
    assert multiset(parent.children)[childKey] <= multiset(NodeKeys(parent))[childKey] <= total[childKey];
  }

  /** Part of a sum that holds every element at most once holds every element at most once. */
  lemma AvailablePlusOnce(a: seq<string>, b: multiset<string>, c: multiset<string>, total: multiset<string>)
    requires multiset(a) + b + c == total && AtMostOnce(total)
    ensures AtMostOnce(multiset(a) + b)
  {
    forall x ensures (multiset(a) + b)[x] <= 1 {
      assert total[x] <= 1;
    }
  }

  /** The note keys are already in their own order. */
  lemma NoteKeysSorted()
    ensures SortedByRank(NoteKeys)
  {
    forall i, j | 0 <= i < j < |NoteKeys| ensures Rank(NoteKeys[i]) <= Rank(NoteKeys[j]) {
      RankOfNoteKey(i);
      RankOfNoteKey(j);
    }
  }

  /** Every note key available in note-key order, nothing placed. */
  lemma AllAvailableValid()
    ensures Valid(NoteState(NoteKeys, []))
  {
    NoteKeysSorted();
    EmptyStructureHolds(NoteKeys);
  }

  lemma EmptyStructureHolds(keys: seq<string>)
    ensures HoldsOnce(NoteState(keys, []), multiset(keys))
  {
    assert Placed([]) == [];
  }

  lemma AddMainPreserves(st: NoteState, key: string)
    requires Valid(st)
    ensures Valid(AfterAddMain(st, key))
  {
    NoteKeysOnce();
    AddMainKeeps(st, key, multiset(NoteKeys));
    RemoveSorted(st.availableKeys, key);
  }

  lemma AddSubPreserves(st: NoteState, parentKey: string, childKey: string)
    requires Valid(st)
    ensures Valid(AfterAddSub(st, parentKey, childKey))
  {
    NoteKeysOnce();
    AddSubKeeps(st, parentKey, childKey, multiset(NoteKeys));
    RemoveSorted(st.availableKeys, childKey);
  }

  lemma RemoveMainPreserves(st: NoteState, key: string)
    requires Valid(st)
    ensures Valid(AfterRemoveMain(st, key))
  {
    NoteKeysOnce();
    RemoveMainKeeps(st, key, multiset(NoteKeys));
  }

  lemma RemoveChildPreserves(st: NoteState, parentKey: string, childKey: string)
    requires Valid(st)
    requires FindMain(st.structure, parentKey).Some?
    requires childKey in st.structure[FindMain(st.structure, parentKey).value].children
    ensures Valid(AfterRemoveChild(st, parentKey, childKey))
  {
    NoteKeysOnce();
    RemoveChildKeeps(st, parentKey, childKey, multiset(NoteKeys));
  }

  /** Under the invariant every note key is in exactly one of the two places, and nothing
      else is anywhere. */
  lemma ValidPartition(st: NoteState, k: string)
    requires Valid(st)
    ensures k in NoteKeys <==> k in st.availableKeys || k in Placed(st.structure)
    ensures !(k in st.availableKeys && k in Placed(st.structure))
  {
    NoteKeysOnce();
    HeldApart(st, multiset(NoteKeys), k);
  }

  /** A key held at most once is not both available and placed; it is held exactly when
      it is in one of the two. */
  lemma HeldApart(st: NoteState, total: multiset<string>, k: string)
    requires HoldsOnce(st, total) && AtMostOnce(total)
    ensures k in total <==> k in st.availableKeys || k in Placed(st.structure)
    ensures !(k in st.availableKeys && k in Placed(st.structure))
  {
    assert total[k] == multiset(st.availableKeys)[k] + multiset(Placed(st.structure))[k];
  }

  /** Adding an available main section moves its key from the list to a new last node. */
  lemma AddMainMoves(st: NoteState, key: string)
    requires Valid(st) && key in st.availableKeys
    ensures var after := AfterAddMain(st, key);
            && after.structure == st.structure + [Node(key, [])]
            && (forall y :: y in after.availableKeys <==> y in st.availableKeys && y != key)
  {
    ValidPartition(st, key);
    KeyInStructureIffPlaced(st.structure, key);
  }

  /** Adding an available child under an existing main section appends it to that node's
      children and leaves every other node alone. */
  lemma AddSubMoves(st: NoteState, parentKey: string, childKey: string)
    requires Valid(st) && childKey in st.availableKeys && FindMain(st.structure, parentKey).Some?
    ensures var after := AfterAddSub(st, parentKey, childKey);
            var i := FindMain(st.structure, parentKey).value;
            && |after.structure| == |st.structure|
            && after.structure[i] == Node(parentKey, st.structure[i].children + [childKey])
            && (forall j :: 0 <= j < |st.structure| && j != i ==> after.structure[j] == st.structure[j])
            && (forall y :: y in after.availableKeys <==> y in st.availableKeys && y != childKey)
  {
    ValidPartition(st, childKey);
    KeyInStructureIffPlaced(st.structure, childKey);
  }

  /** Removing a main section returns its key and all its children to the available list,
      and none of them is left in the structure. */
  lemma RemoveMainReturns(st: NoteState, key: string)
    requires Valid(st) && FindMain(st.structure, key).Some?
    ensures var after := AfterRemoveMain(st, key);
            var removed := st.structure[FindMain(st.structure, key).value];
            && (forall y :: y in after.availableKeys <==> y in st.availableKeys || y in NodeKeys(removed))
            && (forall y :: y in NodeKeys(removed) ==> !KeyInStructure(after.structure, y))
  {
    var after := AfterRemoveMain(st, key);
    var removed := st.structure[FindMain(st.structure, key).value];
    NoteKeysOnce();
    RemoveMainKeeps(st, key, multiset(NoteKeys));
    forall y | y in NodeKeys(removed) ensures !KeyInStructure(after.structure, y) {
      HeldApart(after, multiset(NoteKeys), y);
      KeyInStructureIffPlaced(after.structure, y);
    }
  }

  /** Removing a child returns it to the available list and out of the structure. */
  lemma RemoveChildReturns(st: NoteState, parentKey: string, childKey: string)
    requires Valid(st) && FindMain(st.structure, parentKey).Some?
    requires childKey in st.structure[FindMain(st.structure, parentKey).value].children
    ensures var after := AfterRemoveChild(st, parentKey, childKey);
            && (forall y :: y in after.availableKeys <==> y in st.availableKeys || y == childKey)
            && !KeyInStructure(after.structure, childKey)
  {
    var i := FindMain(st.structure, parentKey).value;
    var parent := st.structure[i];
    var s' := st.structure[i := Node(parent.key, Remove(parent.children, childKey))];
    var after := AfterRemoveChild(st, parentKey, childKey);
    assert after == NoteState(AddKeys(st.availableKeys, [childKey]), s');
    NoteKeysOnce();
    RemoveChildKeeps(st, parentKey, childKey, multiset(NoteKeys));
    AddOneKey(st.availableKeys, childKey);
    HeldApart(after, multiset(NoteKeys), childKey);
    KeyInStructureIffPlaced(after.structure, childKey);
  }

  lemma AddOneKey(available: seq<string>, k: string)
    ensures forall y :: y in AddKeys(available, [k]) <==> y in available || y == k
  {
    var r := AddKeys(available, [k]);
    forall y ensures y in r <==> y in available || y == k {
      assert y in [k] <==> y == k;
    }
  }

  /** Under the invariant an available key is in no node. */
  lemma AvailableNotPlaced(st: NoteState, k: string)
    requires Valid(st) && k in st.availableKeys
    ensures !KeyInStructure(st.structure, k)
  {
    NoteKeysOnce();
    HeldApart(st, multiset(NoteKeys), k);
    KeyInStructureIffPlaced(st.structure, k);
  }

  /** Each main node's keys, counted in the structure: a key that is the main key of two
      nodes is placed twice. */
  lemma PlacedTwice(structure: seq<Node>, j: nat, k: nat)
    requires j < k < |structure|
    ensures multiset(Placed(structure))[structure[j].key] >=
            1 + (if structure[k].key == structure[j].key then 1 else 0)
  {
    var pre, post := structure[..k], structure[k..];
    assert structure == pre + post;
    PlacedConcat(pre, post);
    assert pre[j] == structure[j];
    MainKeyPlaced(pre, j);
    assert post[0] == structure[k];
    MainKeyPlaced(post, 0);
  }

  lemma MainKeyPlaced(structure: seq<Node>, j: nat)
    requires j < |structure|
    ensures structure[j].key in multiset(Placed(structure))
  {
    KeyInStructureIffPlaced(structure, structure[j].key);
  }

  /** Under the invariant no two main sections share a key. */
  lemma MainKeysDistinct(st: NoteState)
    requires Valid(st)
    ensures forall j, k :: 0 <= j < k < |st.structure| ==> st.structure[j].key != st.structure[k].key
  {
    NoteKeysOnce();
    forall j, k | 0 <= j < k < |st.structure| ensures st.structure[j].key != st.structure[k].key {
      PlacedTwice(st.structure, j, k);
      var x := st.structure[j].key;
      assert multiset(Placed(st.structure))[x] <= multiset(NoteKeys)[x] <= 1;
    }
  }

  /** What a node contributes to the gathered record: its key alone when it has no
      children, otherwise its key followed by its children. */
  function NodeValue(n: Node): (v: NoteValue)
    ensures v.Items? <==> n.children != []
    ensures v.Items? ==> v.items == NodeKeys(n)
    ensures v.Text? ==> v.text == n.key
  {
    if n.children == [] then Text(n.key) else Items([n.key] + n.children)
  }

  /** The record the structure writes, one node after another (a later node with the same
      key overwrites an earlier one). */
  function NodesRecord(structure: seq<Node>): (m: map<string, NoteValue>)
    ensures forall k :: k in m <==> exists i :: 0 <= i < |structure| && structure[i].key == k
  {
    if structure == [] then map[]
    else
      var last := structure[|structure| - 1];
      var front := structure[..|structure| - 1];
      var m := NodesRecord(front);
      assert forall i :: 0 <= i < |front| ==> front[i] == structure[i];
      m[last.key := NodeValue(last)]
  }

  /** When main keys are distinct, the record holds each node's own value. */
  lemma {:induction false} NodesRecordLookup(structure: seq<Node>, j: nat)
    requires j < |structure|
    requires forall a, b :: 0 <= a < b < |structure| ==> structure[a].key != structure[b].key
    ensures NodesRecord(structure)[structure[j].key] == NodeValue(structure[j])
    decreases |structure|
  {
    var front := structure[..|structure| - 1];
    if j < |front| {
      assert front[j] == structure[j];
      NodesRecordLookup(front, j);
    }
  }

  /** The value is truthy: present and neither the empty string nor `null`. */
  predicate Truthy(m: map<string, NoteValue>, k: string) {
    k in m && m[k] != Text("") && m[k] != Null
  }

  /** The pass over the note keys that gives every key without a truthy value the
      placeholder. */
  function FillPlaceholders(m: map<string, NoteValue>, keys: seq<string>): (r: map<string, NoteValue>)
    ensures forall k :: k in r <==> k in m || k in keys
    ensures forall k :: k in keys ==> r[k] == if Truthy(m, k) then m[k] else Text(EmptyNotePlaceholder)
    ensures forall k :: k in m && k !in keys ==> r[k] == m[k]
  {
    if keys == [] then m
    else
      var last := keys[|keys| - 1];
      var front := keys[..|keys| - 1];
      var r := FillPlaceholders(m, front);
      assert forall k :: k in keys <==> k in front || k == last by {
        assert keys == front + [last];
      }
      if Truthy(r, last) then r else r[last := Text(EmptyNotePlaceholder)]
  }

  /** The record the manual branch builds for a non-empty structure. */
  function ManualRecord(structure: seq<Node>): map<string, NoteValue> {
    FillPlaceholders(NodesRecord(structure), NoteKeys)
  }

  /** The manual branch on an empty structure: every note key (with "plan") holds the
      placeholder, in note-key order and without the ordering step. */
  function EmptyManualSections(): (r: seq<Section>)
    ensures |r| == |NoteKeys|
    ensures forall i :: 0 <= i < |r| ==> r[i] == Section(NoteKeys[i], Text(EmptyNotePlaceholder))
  {
    seq(|NoteKeys|, i requires 0 <= i < |NoteKeys| => Section(NoteKeys[i], Text(EmptyNotePlaceholder)))
  }

  /** `gatherNoteSections`, for the strategy chosen in the form and the editor's state. */
  function GatherSpec(strategy: string, st: NoteState): Option<seq<Section>> {
    if strategy == "all" then Some(OrderNoteSections(Some(AsRecord(DefaultWebNoteSections()))))
    else if strategy == "optional" then Some(OrderNoteSections(Some(AsRecord(OptionalWebNoteSections()))))
    else if strategy != "manual" then None
    else ManualGather(st)
  }

  /** The manual branch of `gatherNoteSections`. */
  function ManualGather(st: NoteState): Option<seq<Section>> {
    if st.structure == [] then Some(EmptyManualSections())
    else
      var m := ManualRecord(st.structure);
      if m == map[] then None else Some(OrderNoteSections(Some(m)))
  }

  /** Gathering gives nothing exactly when the strategy is none of the three known ones. */
  lemma GatherNoneIff(strategy: string, st: NoteState)
    ensures GatherSpec(strategy, st).None? <==> strategy != "all" && strategy != "optional" && strategy != "manual"
  {
    if strategy == "manual" {
      ManualGatherSome(st);
    }
  }

  /** The manual branch always gives a table: the record always holds the note keys. */
  lemma ManualGatherSome(st: NoteState)
    ensures ManualGather(st).Some?
  {
    if st.structure != [] {
      var m := ManualRecord(st.structure);
      assert NoteKeys[0] in NoteKeys;
      assert NoteKeys[0] in m;
    }
  }

  /** The "all" strategy gives the default table. */
  lemma GatherAll(st: NoteState)
    ensures GatherSpec("all", st) == Some(DefaultWebNoteSections())
  {
    OrderIdempotent(Some(DefaultSource()));
  }

  /** The "optional" strategy gives the table of placeholders. */
  lemma GatherOptional(st: NoteState)
    ensures GatherSpec("optional", st) == Some(OptionalWebNoteSections())
  {
    OrderIdempotent(Some(CreateEmptyNoteSections()));
  }

  lemma NoteKeyShape(k: string)
    requires k in NoteKeys
    ensures TrimmedText(k) && k != EmptyNotePlaceholder
  {
    NoteKeyEnds(k);
    TrimOfTrimmed(k);
    var i :| 0 <= i < |NoteKeys| && NoteKeys[i] == k;
    NoteKeyStartsLower(i);
  }

  lemma NoteKeyEnds(k: string)
    requires k in NoteKeys
    ensures k != [] && !IsJsWhitespace(k[0]) && !IsJsWhitespace(k[|k| - 1])
  {
  }

  lemma NoteKeyStartsLower(i: nat)
    requires i < |NoteKeys|
    ensures NoteKeys[i] != [] && 'a' <= NoteKeys[i][0] <= 'z'
  {
  }

  /** In the manual strategy, a section that is the key of a main node holds that node's
      key and children. */
  lemma ManualGatherMain(st: NoteState, i: nat, j: nat)
    requires Valid(st) && i < |NoteSectionOrder| && j < |st.structure|
    requires st.structure[j].key == NoteSectionOrder[i]
    ensures ManualGather(st).Some?
    ensures ManualGather(st).value[i] == Section(NoteSectionOrder[i], NodeValue(st.structure[j]))
  {
    var n := st.structure[j];
    var m := ManualRecord(st.structure);
    ManualRecordAtMain(st, j);
    ManualGatherSome(st);
    assert Lookup(Some(m), NoteSectionOrder[i]) == Some(NodeValue(n));
  }

  /** Under the invariant the manual record holds each main node's value, in ordered form. */
  lemma ManualRecordAtMain(st: NoteState, j: nat)
    requires Valid(st) && j < |st.structure|
    ensures var n := st.structure[j];
            && n.key in ManualRecord(st.structure)
            && ManualRecord(st.structure)[n.key] == NodeValue(n)
            && OrderValue(Some(NodeValue(n))) == NodeValue(n)
  {
    var n := st.structure[j];
    MainKeysDistinct(st);
    NodesRecordLookup(st.structure, j);
    MainKeyIsNoteKey(st, j);
    NoteKeyShape(n.key);
    FilledMain(NodesRecord(st.structure), n);
  }

  lemma FilledMain(nodes: map<string, NoteValue>, n: Node)
    requires n.key in nodes && nodes[n.key] == NodeValue(n)
    requires n.key in NoteKeys && TrimmedText(n.key) && n.key != EmptyNotePlaceholder
    ensures FillPlaceholders(nodes, NoteKeys)[n.key] == NodeValue(n)
    ensures OrderValue(Some(NodeValue(n))) == NodeValue(n)
  {
    assert Truthy(nodes, n.key);
  }

  lemma MainKeyIsNoteKey(st: NoteState, j: nat)
    requires Valid(st) && j < |st.structure|
    ensures st.structure[j].key in NoteKeys
  {
    KeyInStructureIffPlaced(st.structure, st.structure[j].key);
    ValidPartition(st, st.structure[j].key);
  }

  /** In the manual strategy, a section that is no main node's key holds the placeholder
      (a key placed only as a child is listed under its parent). */
  lemma ManualGatherOther(st: NoteState, i: nat)
    requires st.structure != [] && i < |NoteSectionOrder|
    requires forall j :: 0 <= j < |st.structure| ==> st.structure[j].key != NoteSectionOrder[i]
    ensures ManualGather(st).Some?
    ensures ManualGather(st).value[i] == Section(NoteSectionOrder[i], Text(EmptyNotePlaceholder))
  {
    var k := NoteSectionOrder[i];
    var m := ManualRecord(st.structure);
    assert k in NoteKeys by { SectionKeyIsNoteKey(i); }
    assert k !in NodesRecord(st.structure);
    assert m[k] == Text(EmptyNotePlaceholder);
    ManualGatherSome(st);
    PlaceholderTrimmed();
  }

  lemma SectionKeyIsNoteKey(i: nat)
    requires i < |NoteSectionOrder|
    ensures NoteSectionOrder[i] in NoteKeys
  {
  }

  /** The editor of the page: the two fields of `manualNoteState`. */
  class ManualNoteState {
    var availableKeys: seq<string>
    var structure: seq<Node>

    function State(): NoteState
      reads this
    {
      NoteState(availableKeys, structure)
    }

    /** The state as first declared, before the page resets it. */
    constructor()
      ensures State() == NoteState([], [])
    {
      availableKeys := [];
      structure := [];
    }

    /** `sortAvailableKeys`. */
    method SortAvailableKeys()
      modifies this
      ensures State() == NoteState(SortByNoteOrder(old(availableKeys)), old(structure))
    {
      availableKeys := SortByNoteOrder(availableKeys);
    }

    /** `resetManualNoteState`: every note key available, nothing placed. */
    method ResetManualNoteState()
      modifies this
      ensures State() == NoteState(NoteKeys, []) && Valid(State())
    {
      availableKeys := NoteKeys;
      structure := [];
      ghost var keys := availableKeys;
      SortAvailableKeys();
      assert availableKeys == SortByNoteOrder(keys);
      SortNoteKeys(keys);
      AllAvailableValid();
    }

    /** `removeKeyFromAvailable`. */
    method RemoveKeyFromAvailable(key: string)
      modifies this
      ensures State() == NoteState(Remove(old(availableKeys), key), old(structure))
    {
      availableKeys := Remove(availableKeys, key);
    }

    /** `addKeysToAvailable`. */
    method AddKeysToAvailable(keys: seq<string>)
      modifies this
      ensures State() == NoteState(AddKeys(old(availableKeys), keys), old(structure))
    {
      availableKeys := Dedup(availableKeys + keys);
      SortAvailableKeys();
    }

    /** `addMainSection`. */
    method AddMainSection(key: string)
      modifies this
      ensures State() == AfterAddMain(old(State()), key)
      ensures old(Valid(State())) ==> Valid(State())
    {
      ghost var st := State();
      if Valid(st) {
        AddMainPreserves(st, key);
      }
      if KeyInStructure(structure, key) || key !in availableKeys {
        return;
      }
      RemoveKeyFromAvailable(key);
      structure := structure + [Node(key, [])];
    }

    /** `addSubSection`. */
    method AddSubSection(parentKey: string, childKey: string)
      modifies this
      ensures State() == AfterAddSub(old(State()), parentKey, childKey)
      ensures old(Valid(State())) ==> Valid(State())
    {
      ghost var st := State();
      if Valid(st) {
        AddSubPreserves(st, parentKey, childKey);
      }
      if KeyInStructure(structure, childKey) || childKey !in availableKeys {
        return;
      }
      var parent := FindMain(structure, parentKey);
      if parent.None? {
        return;
      }
      var i := parent.value;
      RemoveKeyFromAvailable(childKey);
      structure := structure[i := Node(structure[i].key, structure[i].children + [childKey])];
    }

    /** `removeMainSection`. */
    method RemoveMainSection(key: string)
      modifies this
      ensures State() == AfterRemoveMain(old(State()), key)
      ensures old(Valid(State())) ==> Valid(State())
    {
      ghost var st := State();
      if Valid(st) {
        RemoveMainPreserves(st, key);
      }
      var index := FindMain(structure, key);
      if index.None? {
        return;
      }
      var removed := structure[index.value];
      structure := structure[..index.value] + structure[index.value + 1..];
      AddKeysToAvailable([removed.key] + removed.children);
    }

    /** `removeChildSection`: the child is filtered out of the parent's list and offered
        again, whether or not it was there. */
    method RemoveChildSection(parentKey: string, childKey: string)
      modifies this
      ensures State() == AfterRemoveChild(old(State()), parentKey, childKey)
      ensures (old(Valid(State())) && old(FindMain(structure, parentKey)).Some? &&
               childKey in old(structure[FindMain(structure, parentKey).value].children)) ==> Valid(State())
    {
      ghost var st := State();
      if Valid(st) && FindMain(st.structure, parentKey).Some? &&
         childKey in st.structure[FindMain(st.structure, parentKey).value].children {
        RemoveChildPreserves(st, parentKey, childKey);
      }
      var parent := FindMain(structure, parentKey);
      if parent.None? {
        return;
      }
      var i := parent.value;
      structure := structure[i := Node(structure[i].key, Remove(structure[i].children, childKey))];
      AddKeysToAvailable([childKey]);
    }

    /** `gatherNoteSections`. */
    method GatherNoteSections(strategy: string) returns (sections: Option<seq<Section>>)
      ensures sections == GatherSpec(strategy, State())
    {
      if strategy == "all" {
        return Some(OrderNoteSections(Some(AsRecord(DefaultWebNoteSections()))));
      }
      if strategy == "optional" {
        return Some(OrderNoteSections(Some(AsRecord(OptionalWebNoteSections()))));
      }
      if strategy != "manual" {
        return None;
      }
      if |structure| == 0 {
        var empty := EmptyManualMap();
        return Some(empty);
      }
      var m := ManualMap();
      if |m.Keys| == 0 {
        return None;
      }
      return Some(OrderNoteSections(Some(m)));
    }

    /** The record of the manual branch when nothing is placed. */
    method EmptyManualMap() returns (empty: seq<Section>)
      ensures empty == EmptyManualSections()
    {
      empty := [];
      var n := 0;
      while n < |NoteKeys|
        invariant 0 <= n <= |NoteKeys|
        invariant |empty| == n
        invariant forall i :: 0 <= i < n ==> empty[i] == Section(NoteKeys[i], Text(EmptyNotePlaceholder))
      {
        empty := empty + [Section(NoteKeys[n], Text(EmptyNotePlaceholder))];
        n := n + 1;
      }
    }

    /** The record of the manual branch: one entry per node, then the placeholder for every
        note key without a truthy value. */
    method ManualMap() returns (m: map<string, NoteValue>)
      ensures m == ManualRecord(structure)
    {
      m := WriteNodes(structure);
      m := FillMissing(m, NoteKeys);
    }
  }

  /** The first pass of the manual branch: every node writes its value under its key. */
  method WriteNodes(structure: seq<Node>) returns (m: map<string, NoteValue>)
    ensures m == NodesRecord(structure)
  {
    m := map[];
    var j := 0;
    while j < |structure|
      invariant 0 <= j <= |structure|
      invariant m == NodesRecord(structure[..j])
    {
      var node := structure[j];
      assert structure[..j + 1][..j] == structure[..j];
      if node.children == [] {
        m := m[node.key := Text(node.key)];
      } else {
        m := m[node.key := Items([node.key] + node.children)];
      }
      j := j + 1;
    }
    assert structure[..j] == structure;
  }

  /** The second pass: every listed key without a truthy value gets the placeholder. */
  method FillMissing(m0: map<string, NoteValue>, keys: seq<string>) returns (m: map<string, NoteValue>)
    ensures m == FillPlaceholders(m0, keys)
  {
    m := m0;
    var k := 0;
    while k < |keys|
      invariant 0 <= k <= |keys|
      invariant m == FillPlaceholders(m0, keys[..k])
    {
      assert keys[..k + 1][..k] == keys[..k];
      var key := keys[k];
      if !(key in m && m[key] != Text("") && m[key] != Null) {
        m := m[key := Text(EmptyNotePlaceholder)];
      }
      k := k + 1;
    }
    assert keys[..k] == keys;
  }
}
