/**
 * Metric extraction (redfish/collector.go): matching a rule's path pattern against a
 * resource path, evaluating a property rule's pointer pattern against a document,
 * assembling samples, and the cache holding the current snapshot.
 */
module Collector {
  import opened Wrappers
  import opened Strings
  import opened JsonValue
  import opened Rule

  /** The first part of every metric name. */
  const Namespace: string := "hw"

  type Labels = map<string, string>

  /** A segment `{name}` of a path or pointer pattern: at least two characters, in braces. */
  predicate IsLabelSegment(seg: string)
  {
    |seg| >= 2 && seg[0] == '{' && seg[|seg| - 1] == '}'
  }

  function LabelName(seg: string): string
    requires IsLabelSegment(seg)
  {
    seg[1..|seg| - 1]
  }

  /** A bracketed segment is its name in braces. */
  lemma Bracketed(seg: string)
    requires IsLabelSegment(seg)
    ensures seg == "{" + LabelName(seg) + "}"
  {
    assert seg == [seg[0]] + seg[1..|seg| - 1] + [seg[|seg| - 1]];
  }

  /** The names of the bracketed segments at positions `i` and later. */
  ghost function LabelNamesFrom(segs: seq<string>, i: nat): set<string>
  {
    set k | i <= k < |segs| && IsLabelSegment(segs[k]) :: LabelName(segs[k])
  }

  /* ---------- matchPath ---------- */

  /** Every non-bracketed pattern segment from position `i` on equals the path segment there. */
  ghost predicate LiteralsAgree(re: seq<string>, pe: seq<string>, i: nat)
    requires |re| == |pe|
  {
    forall k :: i <= k < |re| && !IsLabelSegment(re[k]) ==> re[k] == pe[k]
  }

  /** No later bracketed segment binds the same name as the one at `k`. */
  ghost predicate LastBinding(re: seq<string>, k: nat)
    requires k < |re| && IsLabelSegment(re[k])
  {
    forall j :: k < j < |re| && IsLabelSegment(re[j]) ==> LabelName(re[j]) != LabelName(re[k])
  }

  /** The loop of `matchPath` from segment `i` on, with the labels bound so far. */
  function MatchSegments(re: seq<string>, pe: seq<string>, i: nat, labels: Labels): Option<Labels>
    requires |re| == |pe| && i <= |re|
    decreases |re| - i
  {
    if i == |re| then Some(labels)
    else if IsLabelSegment(re[i]) then MatchSegments(re, pe, i + 1, labels[LabelName(re[i]) := pe[i]])
    else if re[i] != pe[i] then None
    else MatchSegments(re, pe, i + 1, labels)
  }

  /** From segment `i` on, the loop succeeds exactly when the literal segments agree. */
  lemma {:induction false} MatchSegmentsSucceeds(re: seq<string>, pe: seq<string>, i: nat, labels: Labels)
    requires |re| == |pe| && i <= |re|
    ensures MatchSegments(re, pe, i, labels).Some? <==> LiteralsAgree(re, pe, i)
    decreases |re| - i
  {
    if i < |re| {
      if IsLabelSegment(re[i]) {
        MatchSegmentsSucceeds(re, pe, i + 1, labels[LabelName(re[i]) := pe[i]]);
      } else {
        MatchSegmentsSucceeds(re, pe, i + 1, labels);
      }
    }
  }

  /** On success the loop adds exactly one label per bracketed name from segment `i` on. */
  lemma {:induction false} MatchSegmentsKeys(re: seq<string>, pe: seq<string>, i: nat, labels: Labels)
    requires |re| == |pe| && i <= |re|
    ensures var r := MatchSegments(re, pe, i, labels);
      r.Some? ==> r.value.Keys == labels.Keys + LabelNamesFrom(re, i)
    decreases |re| - i
  {
    if i < |re| {
      if IsLabelSegment(re[i]) {
        MatchSegmentsKeys(re, pe, i + 1, labels[LabelName(re[i]) := pe[i]]);
        assert LabelNamesFrom(re, i) == {LabelName(re[i])} + LabelNamesFrom(re, i + 1);
      } else {
        MatchSegmentsKeys(re, pe, i + 1, labels);
        assert LabelNamesFrom(re, i) == LabelNamesFrom(re, i + 1);
      }
    }
  }

  /**
   * On success each bracketed name is bound to the path segment under its last
   * occurrence, and labels bound before segment `i` whose name does not recur keep
   * their value.
   */
  lemma {:induction false} MatchSegmentsValues(re: seq<string>, pe: seq<string>, i: nat, labels: Labels)
    requires |re| == |pe| && i <= |re|
    ensures var r := MatchSegments(re, pe, i, labels);
      r.Some? ==>
        && (forall k :: i <= k < |re| && IsLabelSegment(re[k]) && LastBinding(re, k) ==>
              LabelName(re[k]) in r.value && r.value[LabelName(re[k])] == pe[k])
        && (forall key :: key in labels && key !in LabelNamesFrom(re, i) ==>
              key in r.value && r.value[key] == labels[key])
    decreases |re| - i
  {
    if i < |re| {
      var r := MatchSegments(re, pe, i, labels);
      if IsLabelSegment(re[i]) {
        var name := LabelName(re[i]);
        var next := labels[name := pe[i]];
        MatchSegmentsValues(re, pe, i + 1, next);
        if r.Some? {
          if LastBinding(re, i) {
            assert name !in LabelNamesFrom(re, i + 1);
          }
          forall key | key in labels && key !in LabelNamesFrom(re, i)
            ensures key in r.value && r.value[key] == labels[key]
          {
            assert key != name;
          }
        }
      } else {
        MatchSegmentsValues(re, pe, i + 1, labels);
        assert LabelNamesFrom(re, i) == LabelNamesFrom(re, i + 1);
      }
    }
  }

  /**
   * `matchPath`: None when the pattern does not match; otherwise the labels bound by the
   * pattern's bracketed segments.
   */
  function MatchPath(rulePath: string, path: string): Option<Labels>
  {
    var re, pe := Split(rulePath, '/'), Split(path, '/');
    if |re| != |pe| then None else MatchSegments(re, pe, 0, map[])
  }

  /**
   * A pattern matches a path exactly when both have the same number of segments and every
   * literal segment equals the path's segment there; the labels are then one per
   * bracketed name, valued by the path segment under its last occurrence.
   */
  lemma MatchPathSpec(rulePath: string, path: string)
    ensures var r, re, pe := MatchPath(rulePath, path), Split(rulePath, '/'), Split(path, '/');
      && (r.Some? ==> Count(rulePath, '/') == Count(path, '/'))
      && (r.Some? <==> |re| == |pe| && LiteralsAgree(re, pe, 0))
      && (r.Some? ==>
            && r.value.Keys == LabelNamesFrom(re, 0)
            && forall k :: 0 <= k < |re| && IsLabelSegment(re[k]) && LastBinding(re, k) ==>
                 r.value[LabelName(re[k])] == pe[k])
  {
    var re, pe := Split(rulePath, '/'), Split(path, '/');
    if |re| == |pe| {
      MatchSegmentsSucceeds(re, pe, 0, map[]);
      MatchSegmentsKeys(re, pe, 0, map[]);
      MatchSegmentsValues(re, pe, 0, map[]);
    }
  }

  /** A pattern without bracketed segments matches only the identical path, binding nothing. */
  lemma MatchPathLiteral(rulePath: string, path: string)
    requires forall k :: 0 <= k < |Split(rulePath, '/')| ==> !IsLabelSegment(Split(rulePath, '/')[k])
    ensures MatchPath(rulePath, path) == if rulePath == path then Some(map[]) else None
  {
    var re, pe := Split(rulePath, '/'), Split(path, '/');
    MatchPathSpec(rulePath, path);
    assert LabelNamesFrom(re, 0) == {};
    if rulePath == path {
      assert LiteralsAgree(re, pe, 0);
    }
    var r := MatchPath(rulePath, path);
    if r.Some? {
      assert re == pe;
      JoinSplit(rulePath, '/');
      JoinSplit(path, '/');
      assert r.value == map[];
    }
  }

  /* ---------- splitPointer ---------- */

  /** `splitPointer`'s result: the part before the first bracketed segment, its name, and the rest. */
  datatype PointerSplit = PointerSplit(matched: bool, subpath: string, index: string, remainder: string)

  /** Position of the first bracketed segment at or after `i`, or |ts| when there is none. */
  function FirstLabel(ts: seq<string>, i: nat): (k: nat)
    requires i <= |ts|
    ensures i <= k <= |ts|
    ensures k < |ts| ==> IsLabelSegment(ts[k])
    ensures forall j :: i <= j < k ==> !IsLabelSegment(ts[j])
    decreases |ts| - i
  {
    if i == |ts| then i
    else if IsLabelSegment(ts[i]) then i
    else FirstLabel(ts, i + 1)
  }

  /** `splitPointer`. */
  function SplitPointer(pointer: string): PointerSplit
  {
    var ts := Split(pointer, '/');
    var i := FirstLabel(ts, 0);
    if i == |ts| then PointerSplit(false, "", "", "")
    else
      PointerSplit(true, Join(ts[..i], '/'), LabelName(ts[i]),
                   if i != |ts| - 1 then "/" + Join(ts[i + 1..], '/') else "")
  }

  /** The index names of a pointer pattern: the names of its bracketed segments. */
  ghost function IndexNames(pointer: string): set<string>
  {
    LabelNamesFrom(Split(pointer, '/'), 0)
  }

  /** A pointer splits exactly when it has a bracketed segment. */
  lemma SplitPointerMatched(pointer: string)
    ensures SplitPointer(pointer).matched <==> IndexNames(pointer) != {}
    ensures !SplitPointer(pointer).matched ==> SplitPointer(pointer) == PointerSplit(false, "", "", "")
  {
    var ts := Split(pointer, '/');
    var i := FirstLabel(ts, 0);
    if i < |ts| {
      assert LabelName(ts[i]) in IndexNames(pointer);
    }
  }

  lemma SplitAfterSlash(x: string)
    ensures Split("/" + x, '/') == [""] + Split(x, '/')
  {
    assert ("/" + x)[1..] == x;
  }

  /** The segments of a pointer starting with "/" begin with an empty one, then a bracketed one at FirstLabel. */
  lemma SplitPointerSegments(pointer: string)
    requires pointer != "" && pointer[0] == '/'
    requires SplitPointer(pointer).matched
    ensures var ts := Split(pointer, '/'); var i := FirstLabel(ts, 0);
      1 <= i < |ts| && ts[i] == "{" + SplitPointer(pointer).index + "}"
  {
    var ts := Split(pointer, '/');
    assert pointer == "/" + pointer[1..];
    SplitAfterSlash(pointer[1..]);
    assert ts[0] == "";
    Bracketed(ts[FirstLabel(ts, 0)]);
  }

  /**
   * For a pointer starting with "/" that has a bracketed segment, the three parts put back
   * together give the pointer, and the remainder is empty or starts with "/".
   */
  lemma SplitPointerReassembles(pointer: string)
    requires pointer != "" && pointer[0] == '/'
    requires SplitPointer(pointer).matched
    ensures var sp := SplitPointer(pointer);
      && pointer == sp.subpath + "/{" + sp.index + "}" + sp.remainder
      && (sp.remainder == "" || sp.remainder[0] == '/')
  {
    var ts := Split(pointer, '/');
    var i := FirstLabel(ts, 0);
    var sp := SplitPointer(pointer);
    SplitPointerSegments(pointer);
    JoinSplit(pointer, '/');
    JoinAround(ts, i);
    Regroup(sp.subpath, sp.index, sp.remainder);
  }

  /** Joining segments around the one at `i`: those before it, that one, and those after it. */
  lemma {:induction false} JoinAround(ts: seq<string>, i: nat)
    requires 1 <= i < |ts|
    ensures Join(ts, '/') == Join(ts[..i], '/') + "/" + (ts[i] + if i != |ts| - 1 then "/" + Join(ts[i + 1..], '/') else "")
  {
    var before, after := ts[..i], ts[i..];
    assert Join(ts, '/') == Join(before, '/') + "/" + Join(after, '/') by {
      assert ts == before + after;
      JoinAppend(before, after, '/');
    }
    if i != |ts| - 1 {
      assert Join(after, '/') == ts[i] + "/" + Join(ts[i + 1..], '/') by {
        assert after == [ts[i]] + ts[i + 1..];
        JoinAppend([ts[i]], ts[i + 1..], '/');
      }
    } else {
      assert after == [ts[i]];
    }
  }

  /** Regrouping the pieces of a pointer around its bracketed segment. */
  lemma Regroup(subpath: string, index: string, remainder: string)
    ensures subpath + "/" + ("{" + index + "}" + remainder) == subpath + "/{" + index + "}" + remainder
  {
    assert "/" + "{" == "/{";
  }

  /** The names from position `i + 1` on are those of the list with its first `i + 1` segments replaced by "". */
  lemma LabelNamesAfter(ts: seq<string>, i: nat)
    requires i < |ts|
    ensures LabelNamesFrom([""] + ts[i + 1..], 0) == LabelNamesFrom(ts, i + 1)
  {
    var rs := [""] + ts[i + 1..];
    forall n | n in LabelNamesFrom(rs, 0) ensures n in LabelNamesFrom(ts, i + 1) {
      var k :| 0 <= k < |rs| && IsLabelSegment(rs[k]) && LabelName(rs[k]) == n;
      assert rs[k] == ts[i + k];
    }
    forall n | n in LabelNamesFrom(ts, i + 1) ensures n in LabelNamesFrom(rs, 0) {
      var k :| i + 1 <= k < |ts| && IsLabelSegment(ts[k]) && LabelName(ts[k]) == n;
      assert rs[k - i] == ts[k];
    }
  }

  /** The names of a list whose first bracketed segment is at `i`. */
  lemma LabelNamesFromFirst(ts: seq<string>)
    requires FirstLabel(ts, 0) < |ts|
    ensures LabelNamesFrom(ts, 0) ==
      {LabelName(ts[FirstLabel(ts, 0)])} + LabelNamesFrom(ts, FirstLabel(ts, 0) + 1)
  {
  }

  /** The remainder's segments: "" followed by those after the split one. */
  lemma RemainderSegments(pointer: string)
    requires pointer != "" && pointer[0] == '/'
    requires SplitPointer(pointer).matched
    ensures var ts := Split(pointer, '/'); var i := FirstLabel(ts, 0);
      Split(SplitPointer(pointer).remainder, '/') == [""] + ts[i + 1..]
  {
    var ts := Split(pointer, '/');
    var i := FirstLabel(ts, 0);
    SplitPointerSegments(pointer);
    if i == |ts| - 1 {
      assert ts[i + 1..] == [];
    } else {
      SplitJoin(ts[i + 1..], '/');
      SplitAfterSlash(Join(ts[i + 1..], '/'));
    }
  }

  /**
   * The sub-path in front of the first bracketed segment has no index name; the
   * remainder carries all the pointer's index names but the split one.
   */
  lemma SplitPointerIndexNames(pointer: string)
    requires pointer != "" && pointer[0] == '/'
    requires SplitPointer(pointer).matched
    ensures var sp := SplitPointer(pointer);
      && IndexNames(sp.subpath) == {}
      && IndexNames(pointer) == {sp.index} + IndexNames(sp.remainder)
  {
    var ts := Split(pointer, '/');
    var i := FirstLabel(ts, 0);
    SplitPointerSegments(pointer);
    SplitJoin(ts[..i], '/');
    assert LabelNamesFrom(ts[..i], 0) == {};
    RemainderSegments(pointer);
    LabelNamesAfter(ts, i);
    LabelNamesFromFirst(ts);
  }

  /* ---------- matchPointer ---------- */

  /** A value a pointer pattern selected, and the array index bound to each index name. */
  datatype Match = Match(property: Json, indexes: map<string, nat>)

  /**
   * The value a pointer without bracketed segments names: gabs' `Path` of the pointer
   * with its leading "/" dropped and the other "/" turned into ".". The empty pointer
   * (a sub-path in front of a leading bracketed segment) names the document itself.
   */
  function PointerLookup(doc: Json, pointer: string): (r: Option<Json>)
    ensures pointer == "" ==> r == Some(doc)
  {
    if pointer == "" then Some(doc) else DotPath(doc, ReplaceChar(pointer[1..], '/', '.'))
  }

  /**
   * Each match of `ms`, with `index` bound to `i` as well: the same values in the same
   * order, each index map gaining `index` and keeping every other binding.
   */
  function Tag(ms: seq<Match>, index: string, i: nat): (r: seq<Match>)
    ensures |r| == |ms|
    ensures forall k :: 0 <= k < |ms| ==>
      && r[k].property == ms[k].property
      && r[k].indexes.Keys == ms[k].indexes.Keys + {index}
      && r[k].indexes[index] == i
      && forall n :: n in ms[k].indexes && n != index ==> r[k].indexes[n] == ms[k].indexes[n]
  {
    seq(|ms|, k requires 0 <= k < |ms| => Match(ms[k].property, ms[k].indexes[index := i]))
  }

  /** `matchPointer` / `matchPointerAux`. */
  function MatchPointer(pointer: string, doc: Json): (r: seq<Match>)
    ensures pointer == "" ==> r == [Match(doc, map[])]
    ensures pointer != "" && pointer[0] != '/' ==> r == []
    decreases |pointer|, 0, 0
  {
    if pointer == "" then [Match(doc, map[])]
    else if pointer[0] != '/' then []
    else
      var sp := SplitPointer(pointer);
      if !sp.matched then
        match PointerLookup(doc, pointer)
        case None => []
        case Some(v) => [Match(v, map[])]
      else
        SplitPointerReassembles(pointer);
        match PointerLookup(doc, sp.subpath)
        case Some(JArr(children)) => MatchChildren(sp.remainder, sp.index, children, 0)
        case _ => []
  }

  /** The loop of `matchPointerAux` over the array's elements from index `i` on. */
  function MatchChildren(remainder: string, index: string, children: seq<Json>, i: nat): seq<Match>
    requires i <= |children|
    decreases |remainder|, 1, |children| - i
  {
    if i == |children| then []
    else Tag(MatchPointer(remainder, children[i]), index, i) + MatchChildren(remainder, index, children, i + 1)
  }

  /** Every match binds exactly the pointer's index names. */
  lemma {:induction false} MatchPointerIndexes(pointer: string, doc: Json)
    ensures forall m :: m in MatchPointer(pointer, doc) ==> m.indexes.Keys == IndexNames(pointer)
    decreases |pointer|, 0, 0
  {
    if pointer == "" {
      assert Split(pointer, '/') == [""];
      assert LabelNamesFrom([""], 0) == {};
    } else if pointer[0] == '/' {
      var sp := SplitPointer(pointer);
      SplitPointerMatched(pointer);
      if sp.matched {
        SplitPointerReassembles(pointer);
        SplitPointerIndexNames(pointer);
        match PointerLookup(doc, sp.subpath)
        case Some(JArr(children)) =>
          MatchPointerChildren(pointer, doc);
          MatchChildrenIndexes(sp.remainder, sp.index, children, 0);
        case _ =>
      }
    }
  }

  lemma {:induction false} MatchChildrenIndexes(remainder: string, index: string, children: seq<Json>, i: nat)
    requires i <= |children|
    ensures forall m :: m in MatchChildren(remainder, index, children, i) ==>
      && m.indexes.Keys == {index} + IndexNames(remainder)
      && i <= m.indexes[index] < |children|
    decreases |remainder|, 1, |children| - i
  {
    if i < |children| {
      MatchPointerIndexes(remainder, children[i]);
      MatchChildrenIndexes(remainder, index, children, i + 1);
      var here := Tag(MatchPointer(remainder, children[i]), index, i);
      assert forall m :: m in here ==> m.indexes.Keys == {index} + IndexNames(remainder) && m.indexes[index] == i;
    }
  }

  /** Concatenation of a list of match lists. */
  function Concat(ss: seq<seq<Match>>): seq<Match>
  {
    if ss == [] then [] else ss[0] + Concat(ss[1..])
  }

  /** The per-element match lists of an array, each tagged with its element's index. */
  function PerElement(remainder: string, index: string, children: seq<Json>): (ss: seq<seq<Match>>)
    ensures |ss| == |children|
  {
    seq(|children|, i requires 0 <= i < |children| => Tag(MatchPointer(remainder, children[i]), index, i))
  }

  lemma {:induction false} MatchChildrenConcat(remainder: string, index: string, children: seq<Json>, i: nat)
    requires i <= |children|
    ensures MatchChildren(remainder, index, children, i) == Concat(PerElement(remainder, index, children)[i..])
    decreases |children| - i
  {
    var ss := PerElement(remainder, index, children);
    if i < |children| {
      MatchChildrenConcat(remainder, index, children, i + 1);
      assert ss[i..][1..] == ss[i + 1..];
    } else {
      assert ss[i..] == [];
    }
  }

  /**
   * A pointer with a bracketed segment: nothing when the value at the sub-path is missing
   * or not an array; otherwise the remainder's matches on each element, in element
   * order, each with the element's index (within the array's bounds) bound to the name.
   */
  lemma MatchPointerIterates(pointer: string, doc: Json)
    requires pointer != "" && pointer[0] == '/' && SplitPointer(pointer).matched
    ensures var sp := SplitPointer(pointer);
      match PointerLookup(doc, sp.subpath)
      case Some(JArr(children)) =>
        && MatchPointer(pointer, doc) == Concat(PerElement(sp.remainder, sp.index, children))
        && forall m :: m in MatchPointer(pointer, doc) ==>
             sp.index in m.indexes && m.indexes[sp.index] < |children|
      case _ => MatchPointer(pointer, doc) == []
  {
    var sp := SplitPointer(pointer);
    match PointerLookup(doc, sp.subpath)
    case Some(JArr(children)) =>
      MatchChildrenConcat(sp.remainder, sp.index, children, 0);
      MatchChildrenIndexes(sp.remainder, sp.index, children, 0);
      assert PerElement(sp.remainder, sp.index, children)[0..] == PerElement(sp.remainder, sp.index, children);
    case _ =>
  }

  lemma {:induction false} MatchChildrenCount(remainder: string, index: string, children: seq<Json>, i: nat, each: nat)
    requires i <= |children|
    requires forall j :: 0 <= j < |children| ==> |MatchPointer(remainder, children[j])| == each
    ensures |MatchChildren(remainder, index, children, i)| == (|children| - i) * each
    decreases |children| - i
  {
    if i < |children| {
      var here := Tag(MatchPointer(remainder, children[i]), index, i);
      var rest := MatchChildren(remainder, index, children, i + 1);
      assert MatchChildren(remainder, index, children, i) == here + rest;
      MatchChildrenCount(remainder, index, children, i + 1, each);
      var n := |children| - (i + 1);
      assert |here| == each && |rest| == n * each;
      assert (n + 1) * each == each + n * each;
    }
  }

  /** A pointer with a bracketed segment over an array gathers the matches of its children. */
  lemma MatchPointerChildren(pointer: string, doc: Json)
    requires pointer != "" && pointer[0] == '/' && SplitPointer(pointer).matched
    requires PointerLookup(doc, SplitPointer(pointer).subpath).Some?
    requires PointerLookup(doc, SplitPointer(pointer).subpath).value.JArr?
    ensures var sp := SplitPointer(pointer);
            MatchPointer(pointer, doc) == MatchChildren(sp.remainder, sp.index, PointerLookup(doc, sp.subpath).value.elems, 0)
  {
  }

  /**
   * When every element of the array yields the same number of matches, the pointer yields
   * that number times the array's length: with nested arrays, the product of the lengths.
   */
  lemma MatchPointerCount(pointer: string, doc: Json, each: nat)
    requires pointer != "" && pointer[0] == '/' && SplitPointer(pointer).matched
    requires PointerLookup(doc, SplitPointer(pointer).subpath).Some?
    requires PointerLookup(doc, SplitPointer(pointer).subpath).value.JArr?
    requires var sp := SplitPointer(pointer); var children := PointerLookup(doc, sp.subpath).value.elems;
      forall j :: 0 <= j < |children| ==> |MatchPointer(sp.remainder, children[j])| == each
    ensures |MatchPointer(pointer, doc)| ==
      |PointerLookup(doc, SplitPointer(pointer).subpath).value.elems| * each
  {
    var sp := SplitPointer(pointer);
    var children := PointerLookup(doc, sp.subpath).value.elems;
    MatchPointerChildren(pointer, doc);
    MatchChildrenCount(sp.remainder, sp.index, children, 0, each);
    var all := MatchChildren(sp.remainder, sp.index, children, 0);
    assert |children| - 0 == |children|;
    assert |all| == |children| * each;
  }

  /**
   * A pointer without bracketed segments selects at most one value, the one its lookup
   * names, and binds no index; it selects nothing exactly when the lookup fails.
   */
  lemma MatchPointerPlain(pointer: string, doc: Json)
    requires pointer != "" && pointer[0] == '/' && !SplitPointer(pointer).matched
    ensures |MatchPointer(pointer, doc)| <= 1
    ensures MatchPointer(pointer, doc) == [] <==> PointerLookup(doc, pointer).None?
    ensures forall m :: m in MatchPointer(pointer, doc) ==>
      m.indexes == map[] && PointerLookup(doc, pointer) == Some(m.property)
  {
  }

  /**
   * A non-empty pointer navigates the document one field per `/`-separated segment, when no
   * segment holds a "." (which gabs would split on as well).
   */
  lemma PointerLookupSearch(doc: Json, segs: seq<string>)
    requires |segs| >= 1
    requires forall k :: 0 <= k < |segs| ==> '/' !in segs[k] && '.' !in segs[k]
    ensures PointerLookup(doc, "/" + Join(segs, '/')) == Search(doc, segs)
  {
    var pointer := "/" + Join(segs, '/');
    assert pointer[1..] == Join(segs, '/');
    ReplaceJoin(segs, '/', '.');
    SplitJoin(segs, '.');
  }

  /**
   * A pointer of plain field names, such as "/Status/Health", selects the value under those
   * fields with no index bound, or nothing when a field is missing on the way.
   */
  lemma MatchPointerFields(doc: Json, segs: seq<string>)
    requires |segs| >= 1
    requires forall k :: 0 <= k < |segs| ==> '/' !in segs[k] && '.' !in segs[k] && !IsLabelSegment(segs[k])
    ensures MatchPointer("/" + Join(segs, '/'), doc) ==
      match Search(doc, segs)
      case None => []
      case Some(v) => [Match(v, map[])]
  {
    var pointer := "/" + Join(segs, '/');
    SplitAfterSlash(Join(segs, '/'));
    SplitJoin(segs, '/');
    var ts := Split(pointer, '/');
    assert ts == [""] + segs;
    assert forall j :: 0 <= j < |ts| ==> !IsLabelSegment(ts[j]) by {
      forall j | 0 <= j < |ts| ensures !IsLabelSegment(ts[j]) {
        if j > 0 {
          assert ts[j] == segs[j - 1];
        }
      }
    }
    assert !SplitPointer(pointer).matched;
    PointerLookupSearch(doc, segs);
  }

  /* ---------- the leading bracketed segment ---------- */

  /**
   * What the source computes for the gabs path of a sub-path: `subpath[1:]`, which Go
   * rejects with a run-time panic (None here) when the sub-path is empty.
   */
  function SubpathDotsAsWritten(subpath: string): (r: Option<string>)
    ensures r.None? <==> subpath == ""
  {
    if |subpath| < 1 then None else Some(ReplaceChar(subpath[1..], '/', '.'))
  }

  lemma SplitLeadingIndex()
    ensures Split("/{i}", '/') == ["", "{i}"]
  {
    SplitPrefix("{i}", "", '/');
    assert "{i}" + "" == "{i}";
    SplitAfterSlash("{i}");
  }

  /**
   * A pointer whose first segment is bracketed passes validation, yet its sub-path is
   * empty, so the source's `subpath[1:]` panics on every document.
   */
  lemma LeadingIndexPointerPanics()
    ensures PropertyRuleOk(PropertyRule("/{i}", "health", "", "health"))
    ensures SplitPointer("/{i}") == PointerSplit(true, "", "i", "")
    ensures SubpathDotsAsWritten(SplitPointer("/{i}").subpath).None?
  {
    SplitLeadingIndex();
    assert Split("/{i}", '/')[..1] == [""];
  }

  /**
   * Two bracketed segments in a row hit the same panic one level down: the remainder of
   * "/A/{i}/{j}" is "/{j}", whose sub-path is empty.
   */
  lemma ConsecutiveIndexPointerPanics()
    ensures PropertyRuleOk(PropertyRule("/A/{i}/{j}", "health", "", "health"))
    ensures SplitPointer("/A/{i}/{j}") == PointerSplit(true, "/A", "i", "/{j}")
    ensures SubpathDotsAsWritten(SplitPointer(SplitPointer("/A/{i}/{j}").remainder).subpath).None?
  {
    SplitNestedIndex();
    SplitNestedParts();
    SplitInnerIndex();
  }

  lemma SplitInnerIndex()
    ensures SplitPointer("/{j}").subpath == ""
  {
    var rest := ["", "{j}"];
    assert Join(rest, '/') == "/{j}";
    SplitJoin(rest, '/');
    assert FirstLabel(rest, 0) == 1;
    assert Join(rest[..1], '/') == "";
  }

  lemma SplitNestedIndex()
    ensures Split("/A/{i}/{j}", '/') == ["", "A", "{i}", "{j}"]
  {
    var segs := ["", "A", "{i}", "{j}"];
    assert Join(segs, '/') == "/A/{i}/{j}";
    SplitJoin(segs, '/');
  }

  lemma SplitNestedParts()
    requires Split("/A/{i}/{j}", '/') == ["", "A", "{i}", "{j}"]
    ensures SplitPointer("/A/{i}/{j}") == PointerSplit(true, "/A", "i", "/{j}")
  {
    var ts := ["", "A", "{i}", "{j}"];
    NestedFirstLabel();
    NestedJoins();
    assert ts[..2] == ["", "A"] && ts[3..] == ["{j}"];
  }

  lemma NestedFirstLabel()
    ensures FirstLabel(["", "A", "{i}", "{j}"], 0) == 2
    ensures LabelName("{i}") == "i"
  {
    var ts := ["", "A", "{i}", "{j}"];
    assert !IsLabelSegment(ts[0]) && !IsLabelSegment(ts[1]) && IsLabelSegment(ts[2]);
  }

  lemma NestedJoins()
    ensures Join(["", "A"], '/') == "/A"
    ensures "/" + Join(["{j}"], '/') == "/{j}"
  {
  }

  lemma {:induction false} MatchChildrenWhole(index: string, children: seq<Json>, i: nat)
    requires i <= |children|
    ensures |MatchChildren("", index, children, i)| == |children| - i
    ensures forall k :: 0 <= k < |children| - i ==>
      MatchChildren("", index, children, i)[k] == Match(children[i + k], map[index := i + k])
    decreases |children| - i
  {
    if i < |children| {
      MatchChildrenWhole(index, children, i + 1);
    }
  }

  /** With the sub-path looked up as the document itself, "/{i}" iterates a top-level array. */
  lemma LeadingIndexPointerIterates(children: seq<Json>)
    ensures |MatchPointer("/{i}", JArr(children))| == |children|
    ensures forall k :: 0 <= k < |children| ==>
      MatchPointer("/{i}", JArr(children))[k] == Match(children[k], map["i" := k])
  {
    LeadingIndexPointerPanics();
    MatchChildrenWhole("i", children, 0);
  }

  /* ---------- samples ---------- */

  /** One gauge value: metric name, help text, labels and value. */
  datatype Sample = Sample(name: string, help: string, labels: Labels, value: real)

  /**
   * `prometheus.BuildFQName(Namespace, "", name)`. The property rule's name can be read back
   * from the metric name: it is what follows the `hw_` prefix.
   */
  function BuildFQName(name: string): (fq: string)
    ensures fq == "" <==> name == ""
    ensures name != "" ==> |fq| > |Namespace| + 1 && fq[..|Namespace| + 1] == Namespace + "_"
    ensures name != "" ==> fq[|Namespace| + 1..] == name
  {
    if name == "" then "" else Namespace + "_" + name
  }

  /** Distinct property-rule names give distinct metric names. */
  lemma BuildFQNameInjective(a: string, b: string)
    ensures BuildFQName(a) == BuildFQName(b) ==> a == b
  {
    if a != "" && b != "" && BuildFQName(a) == BuildFQName(b) {
      assert a == BuildFQName(a)[|Namespace| + 1..];
    }
  }

  /** The labels of a sample: the path labels, overridden by the decimal index labels. */
  function MergeLabels(pathLabels: Labels, indexes: map<string, nat>): (labels: Labels)
    ensures labels.Keys == pathLabels.Keys + indexes.Keys
    ensures forall k :: k in indexes ==> labels[k] == NatToString(indexes[k])
    ensures forall k :: k in pathLabels && k !in indexes ==> labels[k] == pathLabels[k]
  {
    pathLabels + map k | k in indexes :: NatToString(indexes[k])
  }

  /** The value of a converted property; None when the type is unknown or conversion fails. */
  function ApplyConverter(kind: string, data: Json): (v: Option<real>)
    ensures v.Some? <==> ConverterOf(kind).Success? && Convert(ConverterOf(kind).value, data).error.None?
    ensures v.Some? ==> v.value == Convert(ConverterOf(kind).value, data).value
  {
    match ConverterOf(kind)
    case Failure(_) => None
    case Success(c) =>
      var conv := Convert(c, data);
      if conv.error.None? then Some(conv.value) else None
  }

  /** The sample a match yields, when its value converts. */
  function SampleOf(pr: PropertyRule, pathLabels: Labels, m: Match): seq<Sample>
  {
    match ApplyConverter(pr.kind, m.property)
    case None => []
    case Some(v) => [Sample(BuildFQName(pr.name), pr.description, MergeLabels(pathLabels, m.indexes), v)]
  }

  function MatchSamples(pr: PropertyRule, pathLabels: Labels, ms: seq<Match>): seq<Sample>
  {
    if ms == [] then []
    else MatchSamples(pr, pathLabels, ms[..|ms| - 1]) + SampleOf(pr, pathLabels, ms[|ms| - 1])
  }

  function PropertySamples(prs: seq<PropertyRule>, pathLabels: Labels, doc: Json): seq<Sample>
  {
    if prs == [] then []
    else
      var pr := prs[|prs| - 1];
      PropertySamples(prs[..|prs| - 1], pathLabels, doc) + MatchSamples(pr, pathLabels, MatchPointer(pr.pointer, doc))
  }

  function SamplesAt(mr: MetricRule, dataMap: map<string, Json>, path: string): seq<Sample>
  {
    if path !in dataMap then []
    else match MatchPath(mr.path, path)
      case None => []
      case Some(pathLabels) => PropertySamples(mr.properties, pathLabels, dataMap[path])
  }

  function PathSamples(mr: MetricRule, dataMap: map<string, Json>, paths: seq<string>): seq<Sample>
  {
    if paths == [] then []
    else PathSamples(mr, dataMap, paths[..|paths| - 1]) + SamplesAt(mr, dataMap, paths[|paths| - 1])
  }

  /** The samples of a scrape: rules in order, resource paths in `paths` order. */
  function RuleSamples(rules: seq<MetricRule>, dataMap: map<string, Json>, paths: seq<string>): seq<Sample>
  {
    if rules == [] then []
    else RuleSamples(rules[..|rules| - 1], dataMap, paths) + PathSamples(rules[|rules| - 1], dataMap, paths)
  }

  /** `paths` lists the keys of `dataMap`, each once: one iteration order of the Go map. */
  ghost predicate Enumerates(paths: seq<string>, dataMap: map<string, Json>)
  {
    && (forall p :: p in dataMap <==> p in paths)
    && (forall i, j :: 0 <= i < j < |paths| ==> paths[i] != paths[j])
  }

  /** The loops of `Collect` over the rules and, for each, over the snapshot's resource paths. */
  method CollectSamples(rules: seq<MetricRule>, dataMap: map<string, Json>, paths: seq<string>)
    returns (samples: seq<Sample>)
    requires Enumerates(paths, dataMap)
    ensures samples == RuleSamples(rules, dataMap, paths)
  {
    samples := [];
    for r := 0 to |rules|
      invariant samples == RuleSamples(rules[..r], dataMap, paths)
    {
      var ofRule := CollectRule(rules[r], dataMap, paths);
      assert rules[..r + 1][..r] == rules[..r];
      samples := samples + ofRule;
    }
    assert rules[..|rules|] == rules;
  }

  /** The loop of `Collect` over the snapshot's resource paths, for one rule. */
  method CollectRule(rule: MetricRule, dataMap: map<string, Json>, paths: seq<string>)
    returns (ofRule: seq<Sample>)
    requires Enumerates(paths, dataMap)
    ensures ofRule == PathSamples(rule, dataMap, paths)
  {
    ofRule := [];
    for p := 0 to |paths|
      invariant ofRule == PathSamples(rule, dataMap, paths[..p])
    {
      var path := paths[p];
      assert paths[..p + 1][..p] == paths[..p];
      var parsedJSON := dataMap[path];
      var matched := MatchPath(rule.path, path);
      if matched.None? {
        continue;
      }
      var ofPath := CollectResource(rule.properties, matched.value, parsedJSON);
      ofRule := ofRule + ofPath;
    }
    assert paths[..|paths|] == paths;
  }

  /** The middle loop of `Collect`: over a matching rule's property rules. */
  method CollectResource(properties: seq<PropertyRule>, pathLabels: Labels, parsedJSON: Json)
    returns (samples: seq<Sample>)
    ensures samples == PropertySamples(properties, pathLabels, parsedJSON)
  {
    samples := [];
    for q := 0 to |properties|
      invariant samples == PropertySamples(properties[..q], pathLabels, parsedJSON)
    {
      var propertyRule := properties[q];
      assert properties[..q + 1][..q] == properties[..q];
      var ofProperty := CollectProperty(propertyRule, pathLabels, MatchPointer(propertyRule.pointer, parsedJSON));
      samples := samples + ofProperty;
    }
    assert properties[..|properties|] == properties;
  }

  /** The inner loop of `Collect`: a sample for each match of a property rule whose value converts. */
  method CollectProperty(propertyRule: PropertyRule, pathLabels: Labels, matchedProperties: seq<Match>)
    returns (ofProperty: seq<Sample>)
    ensures ofProperty == MatchSamples(propertyRule, pathLabels, matchedProperties)
  {
    ofProperty := [];
    for k := 0 to |matchedProperties|
      invariant ofProperty == MatchSamples(propertyRule, pathLabels, matchedProperties[..k])
    {
      var m := matchedProperties[k];
      assert matchedProperties[..k + 1][..k] == matchedProperties[..k];
      var value := ApplyConverter(propertyRule.kind, m.property);
      if value.Some? {
        ofProperty := ofProperty + [Sample(BuildFQName(propertyRule.name), propertyRule.description,
                                           MergeLabels(pathLabels, m.indexes), value.value)];
      }
    }
    assert matchedProperties[..|matchedProperties|] == matchedProperties;
  }

  /* ---------- what a scrape emits ---------- */

  /** `s` is the sample match `m` yields under property rule `pr`: its value converts. */
  ghost predicate SampleFrom(pr: PropertyRule, pathLabels: Labels, m: Match, s: Sample)
  {
    var v := ApplyConverter(pr.kind, m.property);
    v.Some? && s == Sample(BuildFQName(pr.name), pr.description, MergeLabels(pathLabels, m.indexes), v.value)
  }

  /** Property rule `pr`'s pointer selects `m` in `doc`, and `m` yields `s`. */
  ghost predicate PropertyYields(pr: PropertyRule, pathLabels: Labels, doc: Json, m: Match, s: Sample)
  {
    m in MatchPointer(pr.pointer, doc) && SampleFrom(pr, pathLabels, m, s)
  }

  /**
   * Resource `path` is in the snapshot, metric rule `mr`'s pattern matches it, and `mr`'s
   * property rule `pr` yields `s` on it through match `m`.
   */
  ghost predicate PathYields(mr: MetricRule, dataMap: map<string, Json>, path: string, pr: PropertyRule, m: Match, s: Sample)
  {
    && path in dataMap
    && MatchPath(mr.path, path).Some?
    && pr in mr.properties
    && PropertyYields(pr, MatchPath(mr.path, path).value, dataMap[path], m, s)
  }

  lemma {:induction false} MatchSamplesSound(pr: PropertyRule, pathLabels: Labels, ms: seq<Match>, s: Sample)
    requires s in MatchSamples(pr, pathLabels, ms)
    ensures exists m :: m in ms && SampleFrom(pr, pathLabels, m, s)
  {
    var init, last := ms[..|ms| - 1], ms[|ms| - 1];
    assert ms == init + [last];
    if s in MatchSamples(pr, pathLabels, init) {
      MatchSamplesSound(pr, pathLabels, init, s);
      var m :| m in init && SampleFrom(pr, pathLabels, m, s);
      assert m in ms;
    } else {
      assert SampleFrom(pr, pathLabels, last, s);
    }
  }

  lemma {:induction false} MatchSamplesComplete(pr: PropertyRule, pathLabels: Labels, ms: seq<Match>, m: Match, s: Sample)
    requires m in ms && SampleFrom(pr, pathLabels, m, s)
    ensures s in MatchSamples(pr, pathLabels, ms)
  {
    var init, last := ms[..|ms| - 1], ms[|ms| - 1];
    assert ms == init + [last];
    if m != last {
      assert m in init;
      MatchSamplesComplete(pr, pathLabels, init, m, s);
    }
  }

  lemma {:induction false} PropertySamplesSound(prs: seq<PropertyRule>, pathLabels: Labels, doc: Json, s: Sample)
    requires s in PropertySamples(prs, pathLabels, doc)
    ensures exists pr, m :: pr in prs && PropertyYields(pr, pathLabels, doc, m, s)
  {
    var init, last := prs[..|prs| - 1], prs[|prs| - 1];
    assert prs == init + [last];
    if s in PropertySamples(init, pathLabels, doc) {
      PropertySamplesSound(init, pathLabels, doc, s);
      var pr, m :| pr in init && PropertyYields(pr, pathLabels, doc, m, s);
      assert pr in prs;
    } else {
      MatchSamplesSound(last, pathLabels, MatchPointer(last.pointer, doc), s);
      var m :| m in MatchPointer(last.pointer, doc) && SampleFrom(last, pathLabels, m, s);
      assert PropertyYields(last, pathLabels, doc, m, s);
    }
  }

  lemma {:induction false} PropertySamplesComplete(prs: seq<PropertyRule>, pathLabels: Labels, doc: Json,
                                                   pr: PropertyRule, m: Match, s: Sample)
    requires pr in prs && PropertyYields(pr, pathLabels, doc, m, s)
    ensures s in PropertySamples(prs, pathLabels, doc)
  {
    var init, last := prs[..|prs| - 1], prs[|prs| - 1];
    assert prs == init + [last];
    if pr == last {
      MatchSamplesComplete(pr, pathLabels, MatchPointer(pr.pointer, doc), m, s);
    } else {
      assert pr in init;
      PropertySamplesComplete(init, pathLabels, doc, pr, m, s);
    }
  }

  lemma {:induction false} PathSamplesSound(mr: MetricRule, dataMap: map<string, Json>, paths: seq<string>, s: Sample)
    requires s in PathSamples(mr, dataMap, paths)
    ensures exists path, pr, m :: path in paths && PathYields(mr, dataMap, path, pr, m, s)
  {
    var init, last := paths[..|paths| - 1], paths[|paths| - 1];
    assert paths == init + [last];
    if s in PathSamples(mr, dataMap, init) {
      PathSamplesSound(mr, dataMap, init, s);
      var path, pr, m :| path in init && PathYields(mr, dataMap, path, pr, m, s);
      assert path in paths;
    } else {
      var pathLabels := MatchPath(mr.path, last).value;
      PropertySamplesSound(mr.properties, pathLabels, dataMap[last], s);
      var pr, m :| pr in mr.properties && PropertyYields(pr, pathLabels, dataMap[last], m, s);
      assert PathYields(mr, dataMap, last, pr, m, s);
    }
  }

  lemma {:induction false} PathSamplesComplete(mr: MetricRule, dataMap: map<string, Json>, paths: seq<string>,
                                               path: string, pr: PropertyRule, m: Match, s: Sample)
    requires path in paths && PathYields(mr, dataMap, path, pr, m, s)
    ensures s in PathSamples(mr, dataMap, paths)
  {
    var init, last := paths[..|paths| - 1], paths[|paths| - 1];
    assert paths == init + [last];
    if path == last {
      PropertySamplesComplete(mr.properties, MatchPath(mr.path, path).value, dataMap[path], pr, m, s);
    } else {
      assert path in init;
      PathSamplesComplete(mr, dataMap, init, path, pr, m, s);
    }
  }

  /**
   * Every sample a scrape emits comes from some rule whose path pattern matches a
   * resource of the snapshot, one of its property pointers selecting a value there that
   * converts; the sample is named "hw_" + the property's name and labelled by the path
   * labels overridden by the index labels (SampleFrom).
   */
  lemma {:induction false} RuleSamplesSound(rules: seq<MetricRule>, dataMap: map<string, Json>, paths: seq<string>, s: Sample)
    requires s in RuleSamples(rules, dataMap, paths)
    ensures exists mr, path, pr, m :: mr in rules && PathYields(mr, dataMap, path, pr, m, s)
  {
    var init, last := rules[..|rules| - 1], rules[|rules| - 1];
    assert rules == init + [last];
    if s in RuleSamples(init, dataMap, paths) {
      RuleSamplesSound(init, dataMap, paths, s);
      var mr, path, pr, m :| mr in init && PathYields(mr, dataMap, path, pr, m, s);
      assert mr in rules;
    } else {
      PathSamplesSound(last, dataMap, paths, s);
      var path, pr, m :| path in paths && PathYields(last, dataMap, path, pr, m, s);
      assert last in rules;
    }
  }

  /**
   * Conversely, every such sample is emitted, whatever order the snapshot's paths are
   * visited in.
   */
  lemma {:induction false} RuleSamplesComplete(rules: seq<MetricRule>, dataMap: map<string, Json>, paths: seq<string>,
                                               mr: MetricRule, path: string, pr: PropertyRule, m: Match, s: Sample)
    requires Enumerates(paths, dataMap)
    requires mr in rules && PathYields(mr, dataMap, path, pr, m, s)
    ensures s in RuleSamples(rules, dataMap, paths)
  {
    var init, last := rules[..|rules| - 1], rules[|rules| - 1];
    assert rules == init + [last];
    if mr == last {
      PathSamplesComplete(mr, dataMap, paths, path, pr, m, s);
    } else {
      assert mr in init;
      RuleSamplesComplete(init, dataMap, paths, mr, path, pr, m, s);
    }
  }

  /* ---------- the snapshot cache and the collector ---------- */

  /** The holder of the current snapshot; the mutex is not modelled. */
  class Cache {
    var dataMap: map<string, Json>

    /** The cache `NewRedfishCollector` creates: an empty snapshot. */
    constructor ()
      ensures dataMap == map[]
    {
      dataMap := map[];
    }

    method Set(dataMap: map<string, Json>)
      modifies this
      ensures this.dataMap == dataMap
    {
      this.dataMap := dataMap;
    }

    method Get() returns (dataMap: map<string, Json>)
      ensures dataMap == this.dataMap
    {
      dataMap := this.dataMap;
    }
  }

  class RedfishCollector {
    const rules: seq<MetricRule>
    const cache: Cache

    constructor (rules: seq<MetricRule>)
      ensures this.rules == rules && fresh(cache) && cache.dataMap == map[]
    {
      this.rules := rules;
      cache := new Cache();
    }

    /** `Collect`: the samples of the snapshot the cache holds, its paths visited in `paths` order. */
    method Collect(paths: seq<string>) returns (samples: seq<Sample>)
      requires Enumerates(paths, cache.dataMap)
      ensures samples == RuleSamples(rules, cache.dataMap, paths)
    {
      var dataMap := cache.Get();
      samples := CollectSamples(rules, dataMap, paths);
    }
  }
}
