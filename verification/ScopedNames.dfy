/**
 * Scoped Slice names in the MATLAB mapping (matlab/src/Util.cpp): `replace`, `lookupKwd`,
 * `splitScopedName` and `idToClass`, and the two ways in which a type id becomes a MATLAB class name.
 */
module ScopedNames {
  import opened Common

  // ---------------------------------------------------------------- searching

  predicate OccursAt(s: string, patt: string, i: nat) {
    i + |patt| <= |s| && s[i..i + |patt|] == patt
  }

  const Npos := -1

  /** `r` is the first occurrence at or after `from`, or npos when there is none. */
  ghost predicate IsFirst(s: string, patt: string, from: nat, r: int) {
    if r == Npos then forall i :: from <= i ==> !OccursAt(s, patt, i)
    else from <= r && OccursAt(s, patt, r) && forall i :: from <= i < r ==> !OccursAt(s, patt, i)
  }

  /** The meaning of `s.find(patt, from)`. */
  ghost function Find(s: string, patt: string, from: nat): int {
    FirstExists(s, patt, from);
    var r :| IsFirst(s, patt, from, r);
    r
  }

  lemma FirstExists(s: string, patt: string, from: nat)
    ensures exists r :: IsFirst(s, patt, from, r)
    decreases |s| - from
  {
    if |s| < from {
      assert IsFirst(s, patt, from, Npos);
    } else if OccursAt(s, patt, from) {
      assert IsFirst(s, patt, from, from);
    } else {
      FirstExists(s, patt, from + 1);
      var r :| IsFirst(s, patt, from + 1, r);
      assert IsFirst(s, patt, from, r);
    }
  }

  lemma FindIsFirst(s: string, patt: string, from: nat)
    ensures IsFirst(s, patt, from, Find(s, patt, from))
  {
    FirstExists(s, patt, from);
  }

  lemma FindIs(s: string, patt: string, from: nat, r: int)
    requires IsFirst(s, patt, from, r)
    ensures Find(s, patt, from) == r
  {
    FindIsFirst(s, patt, from);
  }

  /** `s.find(patt, from)`. */
  method Search(s: string, patt: string, from: nat) returns (r: int)
    ensures r == Find(s, patt, from)
  {
    r := from;
    while r + |patt| <= |s|
      invariant from <= r
      invariant forall i :: from <= i < r ==> !OccursAt(s, patt, i)
    {
      if OccursAt(s, patt, r) {
        FindIs(s, patt, from, r);
        return;
      }
      r := r + 1;
    }
    r := Npos;
    FindIs(s, patt, from, r);
  }

  /** Searching from a position is searching the rest. */
  lemma FindSuffix(s: string, patt: string, from: nat)
    requires from <= |s|
    ensures var r := Find(s[from..], patt, 0);
            Find(s, patt, from) == if r == Npos then Npos else from + r
  {
    var t := s[from..];
    forall i: nat ensures OccursAt(t, patt, i) <==> OccursAt(s, patt, from + i) {
      if from + i + |patt| <= |s| {
        assert t[i..i + |patt|] == s[from + i..from + i + |patt|];
      }
    }
    FindIsFirst(t, patt, 0);
    var r := Find(t, patt, 0);
    forall i | from <= i && OccursAt(s, patt, i) ensures OccursAt(t, patt, i - from) {
      assert i == from + (i - from);
    }
    FindIs(s, patt, from, if r == Npos then Npos else from + r);
  }

  // ---------------------------------------------------------------- splitting and joining

  const Sep := "::"

  /** The components of a name, separated by "::", scanning from the left. */
  ghost function Split(s: string): (ids: seq<string>)
    ensures ids != []
    decreases |s|
  {
    var p := Find(s, Sep, 0);
    if p == Npos then [s] else [s[..p]] + Split(s[p + 2..])
  }

  function Join(ids: seq<string>, sep: string): string
    requires ids != []
  {
    if |ids| == 1 then ids[0] else ids[0] + sep + Join(ids[1..], sep)
  }

  /** The printed form of a scoped name: "::" before each component. */
  function Print(ids: seq<string>): string {
    if ids == [] then "" else Sep + ids[0] + Print(ids[1..])
  }

  lemma {:induction false} PrintIsJoin(ids: seq<string>)
    requires ids != []
    ensures Print(ids) == Sep + Join(ids, Sep)
  {
    if |ids| == 1 {
      assert Print(ids[1..]) == "";
    } else {
      PrintIsJoin(ids[1..]);
    }
  }

  lemma {:induction false} JoinSplit(s: string)
    ensures Join(Split(s), Sep) == s
    decreases |s|
  {
    var p := Find(s, Sep, 0);
    if p != Npos {
      JoinSplit(s[p + 2..]);
      assert Split(s)[1..] == Split(s[p + 2..]);
      assert s == s[..p] + s[p..p + 2] + s[p + 2..];
    }
  }

  /** Lists that can be read back: in no component but the last does "::" occur or straddle the
      component's end, and it does not occur in the last. */
  ghost predicate Readable(ids: seq<string>) {
    && ids != []
    && (forall k :: 0 <= k < |ids| - 1 ==> Find(ids[k] + Sep, Sep, 0) == |ids[k]|)
    && Find(ids[|ids| - 1], Sep, 0) == Npos
  }

  lemma {:induction false} SplitIsReadable(s: string)
    ensures Readable(Split(s))
    decreases |s|
  {
    var p := Find(s, Sep, 0);
    if p != Npos {
      SplitIsReadable(s[p + 2..]);
      assert s[..p] + Sep == s[..p + 2];
      var t := s[..p] + Sep;
      FindIsFirst(s, Sep, 0);
      forall i: nat | i < p ensures !OccursAt(t, Sep, i) {
        assert !OccursAt(s, Sep, i);
        assert t[i..i + 2] == s[i..i + 2];
      }
      assert t[p..p + 2] == Sep;
      FindIs(s[..p] + Sep, Sep, 0, p);
    }
  }

  lemma FindInFront(id: string, rest: string)
    requires Find(id + Sep, Sep, 0) == |id|
    ensures Find(id + Sep + rest, Sep, 0) == |id|
  {
    var s, t := id + Sep + rest, id + Sep;
    FindIsFirst(t, Sep, 0);
    forall i: nat | i < |id| ensures !OccursAt(s, Sep, i) {
      assert s[i..i + 2] == t[i..i + 2];
      assert !OccursAt(t, Sep, i);
    }
    assert s[|id|..|id| + 2] == Sep;
    FindIs(s, Sep, 0, |id|);
  }

  lemma {:induction false} SplitJoin(ids: seq<string>)
    requires Readable(ids)
    ensures Split(Join(ids, Sep)) == ids
  {
    if |ids| > 1 {
      SplitJoin(ids[1..]);
      var rest := Join(ids[1..], Sep);
      FindInFront(ids[0], rest);
      var s := ids[0] + Sep + rest;
      assert s[..|ids[0]|] == ids[0] && s[|ids[0]| + 2..] == rest;
    }
  }

  /** Exactly the readable lists survive printing and splitting. */
  lemma RoundTripIff(ids: seq<string>)
    requires ids != []
    ensures Split(Print(ids)[2..]) == ids <==> Readable(ids)
  {
    PrintIsJoin(ids);
    assert Print(ids)[2..] == Join(ids, Sep);
    SplitIsReadable(Print(ids)[2..]);
    if Readable(ids) {
      SplitJoin(ids);
    }
  }

  /** Slice identifiers hold no colon, so lists of them are readable. */
  lemma IdentifiersAreReadable(ids: seq<string>)
    requires ids != [] && forall k :: 0 <= k < |ids| ==> ':' !in ids[k]
    ensures Readable(ids)
  {
    forall k | 0 <= k < |ids| ensures Find(ids[k], Sep, 0) == Npos && Find(ids[k] + Sep, Sep, 0) == |ids[k]| {
      var s := ids[k];
      forall i: nat | i < |s| ensures !OccursAt(s, Sep, i) && !OccursAt(s + Sep, Sep, i) {
        assert s[i] in s && (s + Sep)[i] == s[i] && Sep[0] == ':';
      }
      assert (s + Sep)[|s|..|s| + 2] == Sep;
      FindIs(s + Sep, Sep, 0, |s|);
    }
  }

  lemma SplitFrom(s: string, from: nat)
    requires from <= |s|
    ensures var e := Find(s, Sep, from);
            Split(s[from..]) == if e == Npos then [s[from..]] else [s[from..e]] + Split(s[e + 2..])
  {
    FindSuffix(s, Sep, from);
    var e := Find(s, Sep, from);
    if e != Npos {
      SliceSlice(s, from, e - from, e - from + 2);
    }
  }

  ghost function Components(scoped: string): seq<string> {
    var p := Find(scoped, Sep, 0);
    if p == Npos then [scoped] else Split(scoped[p + 2..])
  }

  lemma SplitStep(ids: seq<string>, s: string, from: nat, all: seq<string>)
    requires from <= |s| && ids + Split(s[from..]) == all
    ensures var e := Find(s, Sep, from);
            if e == Npos then ids + [s[from..]] == all
            else ids + [s[from..e]] + Split(s[e + 2..]) == all
  {
    SplitFrom(s, from);
    var e := Find(s, Sep, from);
    if e != Npos {
      var x, rest := [s[from..e]], Split(s[e + 2..]);
      assert ids + (x + rest) == ids + x + rest;
    }
  }

  lemma SliceSlice(s: string, i: nat, j: nat, k: nat)
    requires i + j <= |s| && i + k <= |s|
    ensures s[i..][..j] == s[i..i + j] && s[i..][k..] == s[i + k..]
  {
  }

  /** What `ids` and the text from `next` on make up, given the first separator found there. */
  ghost predicate Pending(ids: seq<string>, s: string, next: nat, pos: int, all: seq<string>)
    requires next <= |s|
  {
    && pos == Find(s, Sep, next)
    && if pos == Npos then ids + [s[next..]] == all else ids + Split(s[pos + 2..]) == all
  }

  /** Lines 708-716: the component that starts at pos, when another separator follows it. */
  method PushComponent(ids0: seq<string>, scoped: string, pos: nat, ghost all: seq<string>)
    returns (ids: seq<string>)
    requires pos <= |scoped| && ids0 + Split(scoped[pos..]) == all
    ensures Pending(ids, scoped, pos, Find(scoped, Sep, pos), all)
  {
    ids := ids0;
    SplitStep(ids, scoped, pos, all);
    if pos != |scoped| {
      var endpos := Search(scoped, Sep, pos);
      if endpos != Npos {
        ids := ids + [scoped[pos..endpos]];
      }
    }
  }

  /** `splitScopedName`.  The source asserts that the name starts with a colon; anything before the
      first "::" is dropped, and a name without "::" is its own only component. */
  method SplitScopedName(scoped: string) returns (ids: seq<string>)
    requires scoped != "" && scoped[0] == ':'
    ensures ids == Components(scoped)
  {
    ids := [];
    var next := 0;
    var pos := Search(scoped, Sep, next);
    ghost var all := Components(scoped);
    assert scoped[0..] == scoped && [] + all == all;
    while pos != Npos
      invariant 0 <= next <= |scoped| && Pending(ids, scoped, next, pos, all)
      decreases |scoped| - next
    {
      pos := pos + 2;
      ids := PushComponent(ids, scoped, pos, all);
      next := pos;
      pos := Search(scoped, Sep, next);
    }
    if next != |scoped| {
      ids := ids + [scoped[next..]];
    } else {
      assert scoped[next..] == "";
      ids := ids + [""];
    }
  }

  // ---------------------------------------------------------------- replacing

  /** Every occurrence of a non-empty pattern, found from the left, is replaced. */
  ghost function ReplaceAll(s: string, patt: string, val: string): string
    requires patt != ""
    decreases |s|
  {
    var p := Find(s, patt, 0);
    if p == Npos then s else s[..p] + val + ReplaceAll(s[p + |patt|..], patt, val)
  }

  /** One replacement in `head + rest`, where only `rest` is still to be searched. */
  lemma ReplaceStep(head: string, rest: string, patt: string, val: string, q: nat)
    requires patt != "" && Find(rest, patt, 0) == q
    ensures head + rest[..q] + val + ReplaceAll(rest[q + |patt|..], patt, val) == head + ReplaceAll(rest, patt, val)
  {
    var more := ReplaceAll(rest[q + |patt|..], patt, val);
    assert ReplaceAll(rest, patt, val) == rest[..q] + val + more;
    Regroup(head, rest[..q], val);
    Regroup(head, rest[..q] + val, more);
  }

  lemma Slices(head: string, rest: string, q: nat, k: nat)
    requires q <= |rest| && k <= |rest|
    ensures (head + rest)[..|head| + q] == head + rest[..q]
    ensures (head + rest)[|head| + k..] == rest[k..]
  {
  }

  lemma ReplaceDone(head: string, rest: string, patt: string)
    requires patt != ""
    ensures Find(head + rest, patt, |head|) == Npos <==> Find(rest, patt, 0) == Npos
    ensures Find(head + rest, patt, |head|) != Npos ==> Find(head + rest, patt, |head|) == |head| + Find(rest, patt, 0)
  {
    FindSuffix(head + rest, patt, |head|);
    assert (head + rest)[|head|..] == rest;
  }

  /** The text is `head + rest`, `rest` starts where the search resumes, and pos is what it finds. */
  ghost predicate Replacing(r: string, patt: string, val: string, pos: int, head: string, rest: string, all: string)
    requires patt != ""
  {
    && r == head + rest
    && pos == Find(r, patt, |head|)
    && head + ReplaceAll(rest, patt, val) == all
  }

  lemma ReplacingStep(r: string, patt: string, val: string, pos: nat, head: string, rest: string, all: string)
    returns (head': string, rest': string)
    requires patt != "" && Replacing(r, patt, val, pos, head, rest, all)
    ensures |rest'| < |rest| && |head'| == pos + |val|
    ensures var r' := r[..pos] + val + r[pos + |patt|..];
            Replacing(r', patt, val, Find(r', patt, pos + |val|), head', rest', all)
  {
    ReplaceDone(head, rest, patt);
    var q := pos - |head|;
    ReplaceStep(head, rest, patt, val, q);
    Slices(head, rest, q, q + |patt|);
    head', rest' := head + rest[..q] + val, rest[q + |patt|..];
  }

  /** `replace`.  An empty pattern would be found at every position for ever. */
  method Replace(s: string, patt: string, val: string) returns (r: string)
    requires patt != ""
    ensures r == ReplaceAll(s, patt, val)
  {
    r := s;
    var pos := Search(r, patt, 0);
    ghost var head, rest, all := "", s, ReplaceAll(s, patt, val);
    assert head + rest == s && head + all == all;
    while pos != Npos
      invariant Replacing(r, patt, val, pos, head, rest, all)
      decreases |rest|
    {
      head, rest := ReplacingStep(r, patt, val, pos, head, rest, all);
      r := r[..pos] + val + r[pos + |patt|..];
      pos := pos + |val|;
      pos := Search(r, patt, pos);
    }
    ReplaceDone(head, rest, patt);
  }

  /** Replacing each "::" is splitting and joining, for every string. */
  lemma {:induction false} ReplaceIsJoin(s: string, val: string)
    ensures ReplaceAll(s, Sep, val) == Join(Split(s), val)
    decreases |s|
  {
    var p := Find(s, Sep, 0);
    if p != Npos {
      ReplaceIsJoin(s[p + 2..], val);
      assert Split(s)[1..] == Split(s[p + 2..]);
    }
  }

  // ---------------------------------------------------------------- keywords

  const KeywordList := [
    "break", "case", "catch", "classdef", "continue", "else", "elseif", "end", "for", "function", "global",
    "if", "otherwise", "parfor", "persistent", "return", "spmd", "switch", "try", "while"
  ]

  /** `operator<` on strings. */
  predicate Less(a: string, b: string) {
    if b == "" then false
    else if a == "" then true
    else a[0] < b[0] || (a[0] == b[0] && Less(a[1..], b[1..]))
  }

  lemma {:induction false} LessTrans(a: string, b: string, c: string)
    requires Less(a, b) && Less(b, c)
    ensures Less(a, c)
  {
    if a != "" && a[0] == b[0] == c[0] {
      LessTrans(a[1..], b[1..], c[1..]);
    }
  }

  lemma {:induction false} LessTotal(a: string, b: string)
    ensures !(Less(a, b) && Less(b, a))
    ensures a != b ==> Less(a, b) || Less(b, a)
    ensures !Less(a, a)
  {
    if a != "" && b != "" {
      LessTotal(a[1..], b[1..]);
      if a[0] == b[0] && a[1..] == b[1..] {
        assert a == [a[0]] + a[1..] && b == [b[0]] + b[1..];
      }
    }
    if a != "" {
      LessTotal(a[1..], a[1..]);
    }
  }

  ghost predicate Sorted(list: seq<string>) {
    forall i, j :: 0 <= i < j < |list| ==> Less(list[i], list[j])
  }

  /** `binary_search` over `list[lo..hi]`. */
  predicate BinarySearch(list: seq<string>, name: string, lo: nat, hi: nat)
    requires lo <= hi <= |list|
    decreases hi - lo
  {
    if lo == hi then false
    else
      var mid := lo + (hi - lo) / 2;
      if Less(list[mid], name) then BinarySearch(list, name, mid + 1, hi)
      else if Less(name, list[mid]) then BinarySearch(list, name, lo, mid)
      else true
  }

  /** A name that is not at mid is on the side that the comparison tells. */
  lemma OnOneSide(list: seq<string>, name: string, mid: nat, k: nat)
    requires Sorted(list) && mid < |list| && k < |list| && list[k] == name
    ensures Less(list[mid], name) ==> k > mid
    ensures Less(name, list[mid]) ==> k < mid
  {
    LessTotal(list[mid], name);
  }

  lemma {:induction false} BinarySearchFinds(list: seq<string>, name: string, lo: nat, hi: nat)
    requires lo <= hi <= |list| && Sorted(list)
    ensures BinarySearch(list, name, lo, hi) <==> exists k :: lo <= k < hi && list[k] == name
    decreases hi - lo
  {
    if lo < hi {
      var mid := lo + (hi - lo) / 2;
      LessTotal(list[mid], name);
      if k :| lo <= k < hi && list[k] == name {
        OnOneSide(list, name, mid, k);
      }
      if Less(list[mid], name) {
        BinarySearchFinds(list, name, mid + 1, hi);
      } else if Less(name, list[mid]) {
        BinarySearchFinds(list, name, lo, mid);
      }
    }
  }

  lemma {:induction false} LessAt(a: string, b: string, k: nat)
    requires k <= |a| && k < |b| && a[..k] == b[..k] && (k == |a| || a[k] < b[k])
    ensures Less(a, b)
  {
    if k > 0 {
      assert a[0] == a[..k][0] && b[0] == b[..k][0];
      assert a[1..][..k - 1] == a[..k][1..] && b[1..][..k - 1] == b[..k][1..];
      LessAt(a[1..], b[1..], k - 1);
    }
  }

  lemma {:induction false} SortedFromNeighbours(list: seq<string>)
    requires forall i :: 0 < i < |list| ==> Less(list[i - 1], list[i])
    ensures Sorted(list)
  {
    forall i, j | 0 <= i < j < |list| ensures Less(list[i], list[j]) {
      var k := i + 1;
      while k < j
        invariant i < k <= j && Less(list[i], list[k])
      {
        LessTrans(list[i], list[k], list[k + 1]);
        k := k + 1;
      }
    }
  }

  lemma FirstKeywords()
    ensures forall i :: 0 < i < 10 ==> Less(KeywordList[i - 1], KeywordList[i])
  {
    LessAt("break", "case", 0);
    LessAt("case", "catch", 2);
    LessAt("catch", "classdef", 1);
    LessAt("classdef", "continue", 1);
    LessAt("continue", "else", 0);
    LessAt("else", "elseif", 4);
    LessAt("elseif", "end", 1);
    LessAt("end", "for", 0);
    LessAt("for", "function", 1);
  }

  lemma LastKeywords()
    ensures forall i :: 10 <= i < 20 ==> Less(KeywordList[i - 1], KeywordList[i])
  {
    LessAt("function", "global", 0);
    LessAt("global", "if", 0);
    LessAt("if", "otherwise", 0);
    LessAt("otherwise", "parfor", 0);
    LessAt("parfor", "persistent", 1);
    LessAt("persistent", "return", 0);
    LessAt("return", "spmd", 0);
    LessAt("spmd", "switch", 1);
    LessAt("switch", "try", 0);
    LessAt("try", "while", 0);
  }

  /** The comment in the source: the list must be kept in alphabetical order. */
  lemma KeywordListSorted()
    ensures Sorted(KeywordList)
  {
    FirstKeywords();
    LastKeywords();
    SortedFromNeighbours(KeywordList);
  }

  /** `lookupKwd`. */
  function LookupKwd(name: string): string {
    if BinarySearch(KeywordList, name, 0, |KeywordList|) then "slice_" + name else name
  }

  lemma KeywordsAreEscaped(name: string)
    ensures LookupKwd(name) == if name in KeywordList then "slice_" + name else name
  {
    KeywordListSorted();
    BinarySearchFinds(KeywordList, name, 0, |KeywordList|);
    assert KeywordList[0..|KeywordList|] == KeywordList;
  }

  // ---------------------------------------------------------------- class names

  function Escaped(ids: seq<string>): (r: seq<string>)
    ensures |r| == |ids|
  {
    seq(|ids|, i requires 0 <= i < |ids| => LookupKwd(ids[i]))
  }

  /** `idToClass`. */
  method IdToClass(typeId: string) returns (result: string)
    requires typeId != "" && typeId[0] == ':'
    ensures result == Join(Escaped(Components(typeId)), ".")
  {
    var ids := SplitScopedName(typeId);
    for i := 0 to |ids|
      invariant |ids| == |Components(typeId)|
      invariant forall k :: 0 <= k < |ids| ==>
                  ids[k] == if k < i then LookupKwd(Components(typeId)[k]) else Components(typeId)[k]
    {
      ids := ids[i := LookupKwd(ids[i])];
    }
    assert ids == Escaped(Components(typeId));
    result := Dotted(ids);
  }

  /** Lines 738-747. */
  method Dotted(ids: seq<string>) returns (result: string)
    requires ids != []
    ensures result == Join(ids, ".")
  {
    result := "";
    for i := 0 to |ids|
      invariant if i == 0 then result == "" else result == Join(ids[..i], ".")
    {
      JoinPrefix(ids, i, ".");
      if i != 0 {
        result := result + ".";
      }
      result := result + ids[i];
    }
    assert ids[..|ids|] == ids;
  }

  lemma JoinPrefix(ids: seq<string>, i: nat, sep: string)
    requires i < |ids|
    ensures Join(ids[..i + 1], sep) == if i == 0 then "" + ids[0] else Join(ids[..i], sep) + sep + ids[i]
  {
    assert ids[..i + 1] == ids[..i] + [ids[i]];
    if i > 0 {
      JoinSnoc(ids[..i], ids[i], sep);
    }
  }

  lemma {:induction false} JoinSnoc(ids: seq<string>, id: string, sep: string)
    requires ids != []
    ensures Join(ids + [id], sep) == Join(ids, sep) + sep + id
  {
    if |ids| == 1 {
      assert (ids + [id])[1..] == [id];
    } else {
      JoinSnoc(ids[1..], id, sep);
      assert (ids + [id])[1..] == ids[1..] + [id];
    }
  }

  /** Escaping keywords makes the joined name longer unless there are none. */
  lemma {:induction false} EscapedJoin(ids: seq<string>)
    requires ids != []
    ensures |Join(Escaped(ids), ".")| >= |Join(ids, ".")|
    ensures Join(Escaped(ids), ".") == Join(ids, ".") <==> forall k :: 0 <= k < |ids| ==> ids[k] !in KeywordList
  {
    var es := Escaped(ids);
    KeywordsAreEscaped(ids[0]);
    if |ids| > 1 {
      EscapedJoin(ids[1..]);
      assert es[1..] == Escaped(ids[1..]);
      var a, b := Join(ids[1..], "."), Join(es[1..], ".");
      if ids[0] !in KeywordList {
        assert (ids[0] + "." + a)[|ids[0]| + 1..] == a;
        assert (ids[0] + "." + b)[|ids[0]| + 1..] == b;
      }
      assert (forall k :: 0 <= k < |ids| ==> ids[k] !in KeywordList)
        <==> ids[0] !in KeywordList && forall k :: 0 <= k < |ids[1..]| ==> ids[1..][k] !in KeywordList by {
        if forall k :: 0 <= k < |ids[1..]| ==> ids[1..][k] !in KeywordList {
          forall k | 0 < k < |ids| ensures ids[k] !in KeywordList {
            assert ids[k] == ids[1..][k - 1];
          }
        }
      }
    }
  }

  /** The two paths from a type id to a class name, `idToClass` and the `replace` of `convertException`,
      agree exactly when no component is a keyword. */
  lemma ClassNamesAgreeIff(typeId: string)
    requires Sep <= typeId
    ensures Join(Escaped(Components(typeId)), ".") == ReplaceAll(typeId[2..], Sep, ".")
       <==> forall id :: id in Components(typeId) ==> id !in KeywordList
  {
    assert OccursAt(typeId, Sep, 0);
    ReplaceIsJoin(typeId[2..], ".");
    EscapedJoin(Components(typeId));
  }

  /** A printed type id is split into the identifiers it was printed from. */
  lemma PrintedTypeId(ids: seq<string>)
    requires ids != [] && forall k :: 0 <= k < |ids| ==> ':' !in ids[k]
    ensures Components(Print(ids)) == ids
  {
    PrintIsJoin(ids);
    IdentifiersAreReadable(ids);
    RoundTripIff(ids);
    assert OccursAt(Print(ids), Sep, 0);
  }

  // ---------------------------------------------------------------- what class names mean

  /** Each component of the class name is that of the type id, with "slice_" in front if it is a keyword. */
  lemma EscapedComponents(ids: seq<string>)
    ensures forall k :: 0 <= k < |ids| ==>
              Escaped(ids)[k] == if ids[k] in KeywordList then "slice_" + ids[k] else ids[k]
  {
    forall k | 0 <= k < |ids|
      ensures Escaped(ids)[k] == if ids[k] in KeywordList then "slice_" + ids[k] else ids[k]
    {
      KeywordsAreEscaped(ids[k]);
    }
  }

  lemma DotAfter(a: string, x: string)
    requires '.' !in a
    ensures (a + "." + x)[|a|] == '.' && forall i :: 0 <= i < |a| ==> (a + "." + x)[i] != '.'
    ensures (a + "." + x)[..|a|] == a && (a + "." + x)[|a| + 1..] == x
  {
    forall i | 0 <= i < |a| ensures (a + "." + x)[i] != '.' {
      assert (a + "." + x)[i] == a[i];
    }
  }

  lemma FirstDot(a: string, b: string, x: string, y: string)
    requires '.' !in a && '.' !in b && a + "." + x == b + "." + y
    ensures a == b && x == y
  {
    DotAfter(a, x);
    DotAfter(b, y);
    assert |a| == |b|;
  }

  lemma {:induction false} JoinedDiffer(a: seq<string>, b: seq<string>)
    requires a != [] && b != [] && (forall k :: 0 <= k < |a| ==> '.' !in a[k])
    requires (forall k :: 0 <= k < |b| ==> '.' !in b[k]) && Join(a, ".") == Join(b, ".")
    ensures a == b
  {
    DotInJoin(a);
    DotInJoin(b);
    if |a| > 1 {
      FirstDot(a[0], b[0], Join(a[1..], "."), Join(b[1..], "."));
      JoinedDiffer(a[1..], b[1..]);
      assert a == [a[0]] + a[1..] && b == [b[0]] + b[1..];
    }
  }

  lemma DotInJoin(a: seq<string>)
    requires a != [] && '.' !in a[0]
    ensures '.' in Join(a, ".") <==> |a| > 1
  {
    if |a| > 1 {
      DotAfter(a[0], Join(a[1..], "."));
    }
  }

  /** A Slice identifier: no colon, no dot, and not the escaped form of a keyword. */
  predicate IsIdentifier(id: string) {
    ':' !in id && '.' !in id && !("slice_" <= id)
  }

  lemma EscapedDiffer(x: string, y: string)
    requires IsIdentifier(x) && IsIdentifier(y) && LookupKwd(x) == LookupKwd(y)
    ensures x == y
  {
    KeywordsAreEscaped(x);
    KeywordsAreEscaped(y);
    if x in KeywordList && y in KeywordList {
      assert x == ("slice_" + x)[6..] && y == ("slice_" + y)[6..];
    }
  }

  lemma EscapedHasNoDot(id: string)
    requires IsIdentifier(id)
    ensures '.' !in LookupKwd(id)
  {
    KeywordsAreEscaped(id);
  }

  /** Different type ids have different class names. */
  lemma ClassNamesDiffer(a: seq<string>, b: seq<string>)
    requires a != [] && b != []
    requires (forall k :: 0 <= k < |a| ==> IsIdentifier(a[k])) && forall k :: 0 <= k < |b| ==> IsIdentifier(b[k])
    requires Join(Escaped(Components(Print(a))), ".") == Join(Escaped(Components(Print(b))), ".")
    ensures a == b
  {
    PrintedTypeId(a);
    PrintedTypeId(b);
    forall k | 0 <= k < |a| ensures '.' !in Escaped(a)[k] {
      EscapedHasNoDot(a[k]);
    }
    forall k | 0 <= k < |b| ensures '.' !in Escaped(b)[k] {
      EscapedHasNoDot(b[k]);
    }
    JoinedDiffer(Escaped(a), Escaped(b));
    forall k | 0 <= k < |a| ensures a[k] == b[k] {
      assert Escaped(a)[k] == Escaped(b)[k];
      EscapedDiffer(a[k], b[k]);
    }
  }
}
