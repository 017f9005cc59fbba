/**
 * The rule generator (pkg/collector/cmd/generaterule.go): from a snapshot of Redfish
 * documents and a list of `key:type` pairs, propose one metric rule per resource path,
 * holding one property rule for every place a listed key occurs in its document.
 */
module GenerateRule {
  import opened Wrappers
  import opened Strings
  import opened JsonValue
  import opened Rule
  import opened Sorting
  import Collector

  /** One `--key key:type` argument. */
  datatype KeyType = KeyType(key: string, typ: string)

  /* ---------- normalize ---------- */

  /** The characters `normalize` keeps as they are. */
  predicate NameChar(c: char)
  {
    'a' <= c <= 'z' || '0' <= c <= '9' || c == '_'
  }

  /** What `normalize` makes of one character: kept, lowered (ASCII capitals), or dropped. */
  function NormalizeChar(c: char): seq<char>
  {
    if NameChar(c) then [c]
    else if 'A' <= c <= 'Z' then [LowerChar(c)]
    else []
  }

  /** `normalize`: a hint for a Prometheus metric name, made of `[a-z0-9_]` only. */
  function Normalize(key: string): (r: string)
    ensures |r| <= |key|
    ensures forall i :: 0 <= i < |r| ==> NameChar(r[i])
  {
    if key == [] then [] else NormalizeChar(key[0]) + Normalize(key[1..])
  }

  /**
   * What happens to each character: a name character is kept, an ASCII capital becomes its
   * small letter, and anything else is dropped. With `NormalizeConcat`, this fixes the result
   * for every string.
   */
  lemma NormalizeEachChar(c: char)
    ensures NameChar(c) ==> Normalize([c]) == [c]
    ensures 'A' <= c <= 'Z' ==> Normalize([c]) == [(c as int - 'A' as int + 'a' as int) as char]
    ensures !NameChar(c) && !('A' <= c <= 'Z') ==> Normalize([c]) == []
  {
    assert [c][1..] == [];
  }

  /** A string already made of name characters is left alone. */
  lemma {:induction false} NormalizeKeepsNames(s: string)
    requires forall i :: 0 <= i < |s| ==> NameChar(s[i])
    ensures Normalize(s) == s
  {
    if s != [] {
      NormalizeKeepsNames(s[1..]);
      assert s == [s[0]] + s[1..];
    }
  }

  lemma NormalizeIdempotent(s: string)
    ensures Normalize(Normalize(s)) == Normalize(s)
  {
    NormalizeKeepsNames(Normalize(s));
  }

  /** Characters are filtered one by one: normalizing a concatenation concatenates. */
  lemma {:induction false} NormalizeConcat(a: string, b: string)
    ensures Normalize(a + b) == Normalize(a) + Normalize(b)
  {
    if a != [] {
      NormalizeConcat(a[1..], b);
      assert (a + b)[1..] == a[1..] + b;
      assert (a + b)[0] == a[0];
    } else {
      assert a + b == b;
    }
  }

  /** Case does not matter: lower-casing first gives the same name. */
  lemma {:induction false} NormalizeIgnoresCase(s: string)
    ensures Normalize(ToLower(s)) == Normalize(s)
  {
    if s != [] {
      NormalizeIgnoresCase(s[1..]);
      assert ToLower(s)[1..] == ToLower(s[1..]);
      assert ToLower(s)[0] == LowerChar(s[0]);
    }
  }

  /* ---------- the array segment ---------- */

  /** The ies/s rule: a trailing "ies" becomes "y", otherwise one trailing "s" is dropped. */
  function Singular(word: string): (r: string)
    ensures |r| <= |word|
  {
    if HasSuffix(word, "ies") then word[..|word| - 3] + "y"
    else if HasSuffix(word, "s") then word[..|word| - 1]
    else word
  }

  /** The two English plural endings are undone; a word not ending in "s" is unchanged. */
  lemma SingularUndoesPlural(w: string)
    ensures Singular(w + "ies") == w + "y"
    ensures !HasSuffix(w, "ie") ==> Singular(w + "s") == w
    ensures !HasSuffix(w, "s") ==> Singular(w) == w
  {
    var ies := w + "ies";
    assert ies[|ies| - 3..] == "ies";
    assert ies[..|ies| - 3] == w;
    var s := w + "s";
    assert s[|s| - 1..] == "s";
    assert s[..|s| - 1] == w;
    if !HasSuffix(w, "ie") && |s| >= 3 {
      assert s[|s| - 3..] == w[|w| - 2..] + "s";
    }
  }

  /** The last `/`-separated segment of a pointer: the name of the field holding the array. */
  function LastSegment(pointer: string): string
  {
    var ps := Split(pointer, '/');
    ps[|ps| - 1]
  }

  /** The segment an array adds to the pointer: the field name made singular, in braces. */
  function ArraySegment(pointer: string): string
  {
    "/{" + ToLower(Singular(LastSegment(pointer))) + "}"
  }

  /* ---------- findKeyInKeyTypes ---------- */

  /** `findKeyInKeyTypes`: the first entry for `key`, or none. */
  function FindKeyInKeyTypes(key: string, keyTypes: seq<KeyType>): (r: Option<KeyType>)
    ensures r.None? <==> forall i :: 0 <= i < |keyTypes| ==> keyTypes[i].key != key
    ensures r.Some? ==> exists i :: 0 <= i < |keyTypes| && keyTypes[i] == r.value
                           && r.value.key == key
                           && forall j :: 0 <= j < i ==> keyTypes[j].key != key
  {
    if keyTypes == [] then None
    else if keyTypes[0].key == key then Some(keyTypes[0])
    else
      var r := FindKeyInKeyTypes(key, keyTypes[1..]);
      assert forall i :: 1 <= i < |keyTypes| ==> keyTypes[i] == keyTypes[1..][i - 1];
      r
  }

  /* ---------- generateRuleAux ---------- */

  /** The property rule emitted for a listed field `k` met at `pointer` under `name`. */
  function Emit(pointer: string, name: string, k: string, kt: KeyType): PropertyRule
  {
    PropertyRule(pointer + "/" + k, (name + "_" + Normalize(k))[1..], "", kt.typ)
  }

  /**
   * `generateRuleAux` on a document: appended to `acc`, the rules for every listed key in
   * it. Objects: each field in turn; arrays: the first element only, under the array
   * segment and with the name unchanged; scalars and empty arrays: nothing.
   */
  function GenAux(data: Json, keyTypes: seq<KeyType>, pointer: string, name: string,
                  acc: seq<PropertyRule>): seq<PropertyRule>
    decreases Size(data), 0
  {
    match data
    case JObj(fs) => GenFields(fs, keyTypes, pointer, name, acc)
    case JArr(es) =>
      if es == [] then acc
      else
        ElemSmaller(es, 0);
        GenAux(es[0], keyTypes, pointer + ArraySegment(pointer), name, acc)
    case _ => acc
  }

  /** The object loop of `generateRuleAux` over the fields `fs`, in order. */
  function GenFields(fs: seq<Field>, keyTypes: seq<KeyType>, pointer: string, name: string,
                     acc: seq<PropertyRule>): seq<PropertyRule>
    decreases FieldsSize(fs), 2
  {
    if fs == [] then acc
    else GenField(fs[|fs| - 1], keyTypes, pointer, name,
                  GenFields(fs[..|fs| - 1], keyTypes, pointer, name, acc))
  }

  /** One field: a listed key emits a rule and is not descended into; any other is. */
  function GenField(f: Field, keyTypes: seq<KeyType>, pointer: string, name: string,
                    acc: seq<PropertyRule>): seq<PropertyRule>
    decreases Size(f.value), 1
  {
    match FindKeyInKeyTypes(f.key, keyTypes)
    case Some(kt) => acc + [Emit(pointer, name, f.key, kt)]
    case None => GenAux(f.value, keyTypes, pointer + "/" + f.key, name + "_" + Normalize(f.key), acc)
  }

  /** The rules already gathered are kept in front and never changed. */
  lemma {:induction false} GenAuxAccumulates(data: Json, keyTypes: seq<KeyType>, pointer: string, name: string,
                                             acc: seq<PropertyRule>)
    ensures GenAux(data, keyTypes, pointer, name, acc) == acc + GenAux(data, keyTypes, pointer, name, [])
    decreases Size(data), 0
  {
    match data
    case JObj(fs) => GenFieldsAccumulates(fs, keyTypes, pointer, name, acc);
    case JArr(es) =>
      if es != [] {
        ElemSmaller(es, 0);
        GenAuxAccumulates(es[0], keyTypes, pointer + ArraySegment(pointer), name, acc);
      }
    case _ =>
  }

  lemma {:induction false} GenFieldsAccumulates(fs: seq<Field>, keyTypes: seq<KeyType>, pointer: string, name: string,
                                                acc: seq<PropertyRule>)
    ensures GenFields(fs, keyTypes, pointer, name, acc) == acc + GenFields(fs, keyTypes, pointer, name, [])
    decreases FieldsSize(fs), 2
  {
    if fs != [] {
      var init, last := fs[..|fs| - 1], fs[|fs| - 1];
      FieldSmaller(fs, |fs| - 1);
      GenFieldsAccumulates(init, keyTypes, pointer, name, acc);
      var a := GenFields(init, keyTypes, pointer, name, acc);
      var e := GenFields(init, keyTypes, pointer, name, []);
      GenFieldAccumulates(last, keyTypes, pointer, name, a);
      GenFieldAccumulates(last, keyTypes, pointer, name, e);
    }
  }

  lemma {:induction false} GenFieldAccumulates(f: Field, keyTypes: seq<KeyType>, pointer: string, name: string,
                                               acc: seq<PropertyRule>)
    ensures GenField(f, keyTypes, pointer, name, acc) == acc + GenField(f, keyTypes, pointer, name, [])
    decreases Size(f.value), 1
  {
    if FindKeyInKeyTypes(f.key, keyTypes).None? {
      GenAuxAccumulates(f.value, keyTypes, pointer + "/" + f.key, name + "_" + Normalize(f.key), acc);
    }
  }

  /**
   * What every generated property rule is: its pointer extends the starting pointer by
   * at least one segment and ends with a listed key, its type is the first type listed
   * for that key, its name ends with the normalized key, and it has no description.
   */
  ghost predicate FromListedKey(r: PropertyRule, keyTypes: seq<KeyType>, pointer: string)
  {
    && pointer + "/" <= r.pointer
    && r.description == ""
    && exists k :: HasSuffix(r.pointer, "/" + k) && HasSuffix(r.name, Normalize(k))
                   && FindKeyInKeyTypes(k, keyTypes).Some?
                   && FindKeyInKeyTypes(k, keyTypes).value.typ == r.kind
  }

  lemma EmitFromListedKey(pointer: string, name: string, k: string, kt: KeyType, keyTypes: seq<KeyType>)
    requires FindKeyInKeyTypes(k, keyTypes) == Some(kt)
    ensures FromListedKey(Emit(pointer, name, k, kt), keyTypes, pointer)
  {
    var r := Emit(pointer, name, k, kt);
    assert r.pointer == (pointer + "/") + k;
    assert r.pointer[|r.pointer| - |"/" + k|..] == "/" + k;
    var full := name + "_" + Normalize(k);
    assert full[1..][|full[1..]| - |Normalize(k)|..] == Normalize(k);
  }

  /** A pointer that extends `pointer + "/" + seg` extends `pointer + "/"`. */
  lemma ExtendsSegment(pointer: string, seg: string, r: PropertyRule, keyTypes: seq<KeyType>)
    requires FromListedKey(r, keyTypes, pointer + seg)
    ensures FromListedKey(r, keyTypes, pointer)
    requires |seg| >= 1 && seg[0] == '/'
  {
    assert pointer + "/" <= pointer + seg + "/";
  }

  /** `ExtendsSegment` for the segment of an object field, written as `generateRuleAux` builds it. */
  lemma ExtendsField(pointer: string, key: string, r: PropertyRule, keyTypes: seq<KeyType>)
    requires FromListedKey(r, keyTypes, pointer + "/" + key)
    ensures FromListedKey(r, keyTypes, pointer)
  {
    assert pointer + "/" + key == pointer + ("/" + key);
    ExtendsSegment(pointer, "/" + key, r, keyTypes);
  }

  /** Scalars, empty arrays and empty objects give no rules: the accumulator comes back as it is. */
  lemma GenAuxLeaf(data: Json, keyTypes: seq<KeyType>, pointer: string, name: string, acc: seq<PropertyRule>)
    requires (!data.JObj? && !data.JArr?) || data == JArr([]) || data == JObj([])
    ensures GenAux(data, keyTypes, pointer, name, acc) == acc
  {
  }

  lemma {:induction false} GenAuxSound(data: Json, keyTypes: seq<KeyType>, pointer: string, name: string)
    ensures forall r :: r in GenAux(data, keyTypes, pointer, name, []) ==> FromListedKey(r, keyTypes, pointer)
    decreases Size(data), 0
  {
    match data
    case JObj(fs) => GenFieldsSound(fs, keyTypes, pointer, name);
    case JArr(es) =>
      if es != [] {
        ElemSmaller(es, 0);
        var seg := ArraySegment(pointer);
        GenAuxSound(es[0], keyTypes, pointer + seg, name);
        forall r | r in GenAux(es[0], keyTypes, pointer + seg, name, []) ensures FromListedKey(r, keyTypes, pointer) {
          ExtendsSegment(pointer, seg, r, keyTypes);
        }
      }
    case _ =>
  }

  lemma {:induction false} GenFieldsSound(fs: seq<Field>, keyTypes: seq<KeyType>, pointer: string, name: string)
    ensures forall r :: r in GenFields(fs, keyTypes, pointer, name, []) ==> FromListedKey(r, keyTypes, pointer)
    decreases FieldsSize(fs), 2
  {
    if fs != [] {
      var init, last := fs[..|fs| - 1], fs[|fs| - 1];
      FieldSmaller(fs, |fs| - 1);
      GenFieldsSound(init, keyTypes, pointer, name);
      GenFieldSound(last, keyTypes, pointer, name);
      GenFieldAccumulates(last, keyTypes, pointer, name, GenFields(init, keyTypes, pointer, name, []));
    }
  }

  lemma {:induction false} GenFieldSound(f: Field, keyTypes: seq<KeyType>, pointer: string, name: string)
    ensures forall r :: r in GenField(f, keyTypes, pointer, name, []) ==> FromListedKey(r, keyTypes, pointer)
    decreases Size(f.value), 1
  {
    match FindKeyInKeyTypes(f.key, keyTypes)
    case Some(kt) =>
      EmitFromListedKey(pointer, name, f.key, kt, keyTypes);
    case None =>
      var p := pointer + "/" + f.key;
      GenAuxSound(f.value, keyTypes, p, name + "_" + Normalize(f.key));
      forall r | r in GenAux(f.value, keyTypes, p, name + "_" + Normalize(f.key), [])
        ensures FromListedKey(r, keyTypes, pointer)
      {
        ExtendsField(pointer, f.key, r, keyTypes);
      }
  }

  /** The fields before `j` are handled first: their rules start the object's rules. */
  lemma {:induction false} GenFieldsPrefix(fs: seq<Field>, j: nat, keyTypes: seq<KeyType>, pointer: string, name: string,
                                           acc: seq<PropertyRule>)
    requires j <= |fs|
    ensures GenFields(fs[..j], keyTypes, pointer, name, acc) <= GenFields(fs, keyTypes, pointer, name, acc)
    decreases |fs|
  {
    if j < |fs| {
      var init := fs[..|fs| - 1];
      assert init[..j] == fs[..j];
      GenFieldsPrefix(init, j, keyTypes, pointer, name, acc);
      GenFieldAccumulates(fs[|fs| - 1], keyTypes, pointer, name, GenFields(init, keyTypes, pointer, name, acc));
    } else {
      assert fs[..j] == fs;
    }
  }

  /** Every field of an object whose key is listed gets its rule, under the field's own pointer. */
  lemma EmitsListedFields(fs: seq<Field>, i: nat, keyTypes: seq<KeyType>, pointer: string, name: string,
                          acc: seq<PropertyRule>)
    requires i < |fs| && FindKeyInKeyTypes(fs[i].key, keyTypes).Some?
    ensures Emit(pointer, name, fs[i].key, FindKeyInKeyTypes(fs[i].key, keyTypes).value)
            in GenAux(JObj(fs), keyTypes, pointer, name, acc)
  {
    GenFieldsPrefix(fs, i + 1, keyTypes, pointer, name, acc);
    assert fs[..i + 1][..i] == fs[..i];
    var out := GenFields(fs[..i + 1], keyTypes, pointer, name, acc);
    assert out[|out| - 1] == Emit(pointer, name, fs[i].key, FindKeyInKeyTypes(fs[i].key, keyTypes).value);
  }

  /** Every other field is descended into: its own rules, under its pointer and name, follow those of the fields before it. */
  lemma DescendsUnlistedFields(fs: seq<Field>, i: nat, keyTypes: seq<KeyType>, pointer: string, name: string,
                               acc: seq<PropertyRule>)
    requires i < |fs| && FindKeyInKeyTypes(fs[i].key, keyTypes).None?
    ensures GenFields(fs[..i], keyTypes, pointer, name, acc)
              + GenAux(fs[i].value, keyTypes, pointer + "/" + fs[i].key, name + "_" + Normalize(fs[i].key), [])
            <= GenAux(JObj(fs), keyTypes, pointer, name, acc)
  {
    var f := fs[i];
    var inner := GenAux(f.value, keyTypes, pointer + "/" + f.key, name + "_" + Normalize(f.key), []);
    GenFieldsPrefix(fs, i + 1, keyTypes, pointer, name, acc);
    assert fs[..i + 1][..i] == fs[..i];
    var before := GenFields(fs[..i], keyTypes, pointer, name, acc);
    GenAuxAccumulates(f.value, keyTypes, pointer + "/" + f.key, name + "_" + Normalize(f.key), before);
    assert fs[..i + 1][i] == f;
    assert before + inner == GenFields(fs[..i + 1], keyTypes, pointer, name, acc);
    assert before + inner <= GenAux(JObj(fs), keyTypes, pointer, name, acc);
  }

  /**
   * `generateRuleAux`: the loop over an object's fields appends to `rules` as it goes;
   * for an array only the first element is inspected.
   */
  method GenerateRuleAux(data: Json, keyTypes: seq<KeyType>, pointer: string, name: string,
                         rules: seq<PropertyRule>) returns (result: seq<PropertyRule>)
    ensures result == GenAux(data, keyTypes, pointer, name, rules)
    decreases Size(data), 0
  {
    result := rules;
    match data
    case JObj(fs) =>
      result := GenerateFields(fs, keyTypes, pointer, name, rules);
    case JArr(es) =>
      if |es| > 0 {
        ElemSmaller(es, 0);
        var ps := Split(pointer, '/');
        var parent := Singular(ps[|ps| - 1]);
        assert pointer + "/{" + ToLower(parent) + "}" == pointer + ArraySegment(pointer);
        result := GenerateRuleAux(es[0], keyTypes, pointer + "/{" + ToLower(parent) + "}", name, result);
      }
    case _ =>
  }

  /** The object loop of `generateRuleAux`: a listed key emits a rule, any other is descended into. */
  method GenerateFields(fs: seq<Field>, keyTypes: seq<KeyType>, pointer: string, name: string,
                        rules: seq<PropertyRule>) returns (result: seq<PropertyRule>)
    ensures result == GenFields(fs, keyTypes, pointer, name, rules)
    decreases FieldsSize(fs), 1
  {
    result := rules;
    for i := 0 to |fs|
      invariant result == GenFields(fs[..i], keyTypes, pointer, name, rules)
    {
      ghost var before := result;
      var k, v := fs[i].key, fs[i].value;
      var kt := FindKeyInKeyTypes(k, keyTypes);
      if kt.Some? {
        result := result + [PropertyRule(pointer + "/" + k, (name + "_" + Normalize(k))[1..], "", kt.value.typ)];
      } else {
        FieldSmaller(fs, i);
        result := GenerateRuleAux(v, keyTypes, pointer + "/" + k, name + "_" + Normalize(k), result);
      }
      assert result == GenField(fs[i], keyTypes, pointer, name, before);
      assert GenFields(fs[..i + 1], keyTypes, pointer, name, rules) == GenField(fs[i], keyTypes, pointer, name, before) by {
        assert fs[..i + 1][..i] == fs[..i];
      }
    }
    assert fs[..|fs|] == fs;
  }

  /* ---------- generateRule ---------- */

  /** The index of the first metric rule whose path pattern matches `path`, from `i` on. */
  function FirstMatch(rules: seq<MetricRule>, path: string, i: nat): (r: Option<nat>)
    requires i <= |rules|
    ensures r.Some? ==> i <= r.value < |rules|
    decreases |rules| - i
  {
    if i == |rules| then None
    else if Collector.MatchPath(rules[i].path, path).Some? then Some(i)
    else FirstMatch(rules, path, i + 1)
  }

  /** The rule found matches, the rules before it do not; with none found, no rule matches. */
  lemma {:induction false} FirstMatchSpec(rules: seq<MetricRule>, path: string, i: nat)
    requires i <= |rules|
    ensures var r := FirstMatch(rules, path, i);
            && (r.Some? ==> Collector.MatchPath(rules[r.value].path, path).Some?)
            && (r.Some? ==> forall j :: i <= j < r.value ==> Collector.MatchPath(rules[j].path, path).None?)
            && (r.None? ==> forall j :: i <= j < |rules| ==> Collector.MatchPath(rules[j].path, path).None?)
    decreases |rules| - i
  {
    if i < |rules| && Collector.MatchPath(rules[i].path, path).None? {
      FirstMatchSpec(rules, path, i + 1);
    }
  }

  /** The path a data path is generated under: the first matching rule's pattern, or itself. */
  function TargetPath(rules: seq<MetricRule>, path: string): string
  {
    match FirstMatch(rules, path, 0)
    case Some(i) => rules[i].path
    case None => path
  }

  /** The part of a path after the root, with `/` turned into `_`, normalized. */
  function Prefix(root: string, path: string): string
    requires |root| <= |path|
  {
    Normalize(ReplaceChar(path[|root|..], '/', '_'))
  }

  function PointerOf(pr: PropertyRule): string { pr.pointer }

  function PathOf(mr: MetricRule): string { mr.path }

  /** The data paths can be visited: each is in the snapshot and not shorter than the root once retargeted. */
  predicate Visitable(data: map<string, Json>, order: seq<string>, root: string, rules: seq<MetricRule>)
  {
    && (forall k :: 0 <= k < |order| ==> order[k] in data)
    && forall k {:trigger TargetPath(rules, order[k])} :: 0 <= k < |order| ==> |root| <= |TargetPath(rules, order[k])|
  }

  /** The property rules `generateRuleAux` finds in the document at `path` when it is filed under `target`. */
  function Found(data: map<string, Json>, path: string, target: string, keyTypes: seq<KeyType>,
                 root: string): seq<PropertyRule>
    requires path in data && |root| <= |target|
  {
    GenAux(data[path], keyTypes, "", Prefix(root, target), [])
  }

  /** What each data path finds, in visiting order, when filed under its target. */
  function Yields(data: map<string, Json>, order: seq<string>, keyTypes: seq<KeyType>, root: string,
                  rules: seq<MetricRule>): (ys: seq<seq<PropertyRule>>)
    requires Visitable(data, order, root, rules)
    ensures |ys| == |order|
    ensures forall k :: 0 <= k < |order| ==> ys[k] == Found(data, order[k], TargetPath(rules, order[k]), keyTypes, root)
  {
    seq(|order|, k requires 0 <= k < |order| && Visitable(data, order, root, rules) =>
                   Found(data, order[k], TargetPath(rules, order[k]), keyTypes, root))
  }

  /** `matchedRules` after the first `n` data paths: each path a rule claims adds that rule's path. */
  function ClaimedPaths(rules: seq<MetricRule>, order: seq<string>, n: nat): set<string>
    requires n <= |order|
  {
    if n == 0 then {}
    else ClaimedPaths(rules, order, n - 1) +
         (if FirstMatch(rules, order[n - 1], 0).Some? then {TargetPath(rules, order[n - 1])} else {})
  }

  /** The `n`th data path is skipped: the rule that claims it was taken by an earlier path. */
  predicate Skipped(rules: seq<MetricRule>, order: seq<string>, n: nat)
    requires n < |order|
  {
    FirstMatch(rules, order[n], 0).Some? && TargetPath(rules, order[n]) in ClaimedPaths(rules, order, n)
  }

  /**
   * `generated` after the first `n` data paths, where the `k`th path finds `ys[k]`: a metric
   * rule for each path not skipped that finds properties.
   */
  function Generated(rules: seq<MetricRule>, order: seq<string>, ys: seq<seq<PropertyRule>>, n: nat): seq<MetricRule>
    requires n <= |order| == |ys|
  {
    if n == 0 then []
    else
      var prev := Generated(rules, order, ys, n - 1);
      if Skipped(rules, order, n - 1) || |ys[n - 1]| == 0 then prev
      else prev + [MetricRule(TargetPath(rules, order[n - 1]), SortBy(ys[n - 1], PointerOf))]
  }

  /** One step of the loop, in the terms the loop computes: the first matching rule's index `i`, or the number of rules. */
  lemma ClaimNext(rules: seq<MetricRule>, order: seq<string>, ys: seq<seq<PropertyRule>>, n: nat, i: nat)
    requires n < |order| == |ys|
    requires i <= |rules| && (i < |rules| <==> FirstMatch(rules, order[n], 0).Some?)
    requires i < |rules| ==> FirstMatch(rules, order[n], 0) == Some(i)
    ensures TargetPath(rules, order[n]) == if i < |rules| then rules[i].path else order[n]
    ensures i < |rules| && rules[i].path in ClaimedPaths(rules, order, n) ==>
              && ClaimedPaths(rules, order, n + 1) == ClaimedPaths(rules, order, n)
              && Generated(rules, order, ys, n + 1) == Generated(rules, order, ys, n)
    ensures !(i < |rules| && rules[i].path in ClaimedPaths(rules, order, n)) ==>
              ClaimedPaths(rules, order, n + 1) ==
                if i < |rules| then ClaimedPaths(rules, order, n) + {rules[i].path} else ClaimedPaths(rules, order, n)
    ensures var prev := Generated(rules, order, ys, n);
            !(i < |rules| && rules[i].path in ClaimedPaths(rules, order, n)) ==>
              Generated(rules, order, ys, n + 1) ==
                if |ys[n]| > 0 then prev + [MetricRule(TargetPath(rules, order[n]), SortBy(ys[n], PointerOf))] else prev
  {
  }

  /** The inner loop of `generateRule`: the index of the first rule matching `path`, or the number of rules. */
  method FirstMatchingRule(metricRules: seq<MetricRule>, path: string) returns (i: nat)
    ensures i <= |metricRules|
    ensures i < |metricRules| <==> FirstMatch(metricRules, path, 0).Some?
    ensures i < |metricRules| ==> FirstMatch(metricRules, path, 0) == Some(i)
  {
    FirstMatchSpec(metricRules, path, 0);
    i := 0;
    while i < |metricRules|
      invariant i <= |metricRules|
      invariant forall j :: 0 <= j < i ==> Collector.MatchPath(metricRules[j].path, path).None?
    {
      if Collector.MatchPath(metricRules[i].path, path).Some? {
        return;
      }
      i := i + 1;
    }
  }

  /**
   * `generateRule`: each data path is filed under the first rule whose pattern matches it
   * (skipped when that rule's path is already taken), or under itself when none does;
   * the document's property rules, when there are any, make a metric rule; the metric
   * rules come out ordered by path. `order` is the order the snapshot's paths are visited in.
   */
  method GenerateRule(data: map<string, Json>, order: seq<string>, keyTypes: seq<KeyType>, rule: CollectRule)
    returns (rules: seq<MetricRule>)
    requires Collector.Enumerates(order, data)
    requires Visitable(data, order, rule.traverseRule.root, rule.metricRules)
    ensures rules == SortBy(Generated(rule.metricRules, order,
                                      Yields(data, order, keyTypes, rule.traverseRule.root, rule.metricRules), |order|),
                            PathOf)
  {
    var root, metricRules := rule.traverseRule.root, rule.metricRules;
    ghost var ys := Yields(data, order, keyTypes, root, metricRules);
    var generated: seq<MetricRule> := [];
    var matchedRules: set<string> := {};
    for n := 0 to |order|
      invariant matchedRules == ClaimedPaths(metricRules, order, n)
      invariant generated == Generated(metricRules, order, ys, n)
    {
      var path := order[n];
      var parsedJSON := data[path];
      var i := FirstMatchingRule(metricRules, path);
      ClaimNext(metricRules, order, ys, n, i);
      if i < |metricRules| {
        if metricRules[i].path in matchedRules {
          continue;
        }
        matchedRules := matchedRules + {metricRules[i].path};
        path := metricRules[i].path;
      }
      var prefix := Normalize(ReplaceChar(path[|root|..], '/', '_'));
      var propertyRules := GenerateRuleAux(parsedJSON, keyTypes, "", prefix, []);
      assert propertyRules == ys[n];
      if |propertyRules| > 0 {
        propertyRules := SortBy(propertyRules, PointerOf);
        generated := generated + [MetricRule(path, propertyRules)];
      }
    }
    rules := SortBy(generated, PathOf);
  }

  /* ---------- what generateRule produces ---------- */

  /** A pattern matches its own text: every literal segment agrees with itself. */
  lemma SelfMatch(p: string)
    ensures Collector.MatchPath(p, p).Some?
  {
    Collector.MatchPathSpec(p, p);
  }

  /** When a rule claims a data path, the path it is filed under is claimed by some rule too. */
  lemma TargetClaimed(rules: seq<MetricRule>, q: string)
    requires FirstMatch(rules, q, 0).Some?
    ensures FirstMatch(rules, TargetPath(rules, q), 0).Some?
  {
    var i := FirstMatch(rules, q, 0).value;
    SelfMatch(rules[i].path);
    FirstMatchSpec(rules, rules[i].path, 0);
  }

  /** The `n`th data path is the first one filed under `t`. */
  ghost predicate FirstFiled(rules: seq<MetricRule>, order: seq<string>, n: nat, t: string)
  {
    && n < |order|
    && TargetPath(rules, order[n]) == t
    && forall m {:trigger TargetPath(rules, order[m])} :: 0 <= m < n ==> TargetPath(rules, order[m]) != t
  }

  /** Once a rule claims a data path, its path stays in `matchedRules`. */
  lemma {:induction false} ClaimRecorded(rules: seq<MetricRule>, order: seq<string>, n: nat, m: nat)
    requires n <= |order| && m < n && FirstMatch(rules, order[m], 0).Some?
    ensures TargetPath(rules, order[m]) in ClaimedPaths(rules, order, n)
  {
    if m < n - 1 {
      ClaimRecorded(rules, order, n - 1, m);
    }
  }

  /** Every path in `matchedRules` is the path of a rule that claimed an earlier data path. */
  lemma {:induction false} RecordedClaim(rules: seq<MetricRule>, order: seq<string>, n: nat, t: string)
    requires n <= |order| && t in ClaimedPaths(rules, order, n)
    ensures exists m :: 0 <= m < n && FirstMatch(rules, order[m], 0).Some? && TargetPath(rules, order[m]) == t
  {
    if t in ClaimedPaths(rules, order, n - 1) {
      RecordedClaim(rules, order, n - 1, t);
      var m :| 0 <= m < n - 1 && FirstMatch(rules, order[m], 0).Some? && TargetPath(rules, order[m]) == t;
    } else {
      assert FirstMatch(rules, order[n - 1], 0).Some? && TargetPath(rules, order[n - 1]) == t;
    }
  }

  /**
   * A data path claimed by a rule is skipped exactly when an earlier data path was already
   * filed under that rule's path; a data path no rule claims is never skipped.
   */
  lemma SkippedIffTaken(rules: seq<MetricRule>, order: seq<string>, n: nat)
    requires n < |order|
    requires forall i, j :: 0 <= i < j < |order| ==> order[i] != order[j]
    ensures Skipped(rules, order, n) <==> !FirstFiled(rules, order, n, TargetPath(rules, order[n]))
  {
    var q, t := order[n], TargetPath(rules, order[n]);
    if Skipped(rules, order, n) {
      RecordedClaim(rules, order, n, t);
    }
    if !FirstFiled(rules, order, n, t) {
      var m :| 0 <= m < n && TargetPath(rules, order[m]) == t;
      if FirstMatch(rules, order[m], 0).Some? {
        TargetClaimed(rules, order[m]);
        ClaimRecorded(rules, order, n, m);
      } else if FirstMatch(rules, q, 0).Some? {
        TargetClaimed(rules, q);
      }
    }
  }

  /** The metric rule the `m`th data path yields, finding `ys[m]`, when it is the first filed under its target. */
  ghost predicate YieldedBy(rules: seq<MetricRule>, order: seq<string>, ys: seq<seq<PropertyRule>>, m: nat, mr: MetricRule)
    requires |order| == |ys|
  {
    && FirstFiled(rules, order, m, mr.path)
    && |ys[m]| > 0
    && mr.properties == SortBy(ys[m], PointerOf)
  }

  /** Every generated metric rule comes from the first data path filed under its path. */
  lemma {:induction false} GeneratedOrigin(rules: seq<MetricRule>, order: seq<string>, ys: seq<seq<PropertyRule>>,
                                           n: nat, k: nat)
    requires n <= |order| == |ys|
    requires forall i, j :: 0 <= i < j < |order| ==> order[i] != order[j]
    requires k < |Generated(rules, order, ys, n)|
    ensures exists m :: 0 <= m < n && YieldedBy(rules, order, ys, m, Generated(rules, order, ys, n)[k])
  {
    var gen := Generated(rules, order, ys, n);
    var prev := Generated(rules, order, ys, n - 1);
    if k < |prev| {
      assert gen[k] == prev[k];
      GeneratedOrigin(rules, order, ys, n - 1, k);
      var m :| 0 <= m < n - 1 && YieldedBy(rules, order, ys, m, prev[k]);
    } else {
      SkippedIffTaken(rules, order, n - 1);
      assert YieldedBy(rules, order, ys, n - 1, gen[k]);
    }
  }

  /** No two metric rules share a path. */
  ghost predicate DistinctPaths(s: seq<MetricRule>)
  {
    forall i, j :: 0 <= i < j < |s| ==> s[i].path != s[j].path
  }

  /** No two generated metric rules share a path. */
  lemma {:induction false} GeneratedDistinct(rules: seq<MetricRule>, order: seq<string>, ys: seq<seq<PropertyRule>>, n: nat)
    requires n <= |order| == |ys|
    requires forall i, j :: 0 <= i < j < |order| ==> order[i] != order[j]
    ensures DistinctPaths(Generated(rules, order, ys, n))
  {
    if n > 0 {
      GeneratedDistinct(rules, order, ys, n - 1);
      var gen := Generated(rules, order, ys, n);
      var prev := Generated(rules, order, ys, n - 1);
      if gen != prev {
        var t := TargetPath(rules, order[n - 1]);
        SkippedIffTaken(rules, order, n - 1);
        forall k | 0 <= k < |prev| ensures prev[k].path != t {
          GeneratedOrigin(rules, order, ys, n - 1, k);
          var m :| 0 <= m < n - 1 && YieldedBy(rules, order, ys, m, prev[k]);
        }
        forall i, j | 0 <= i < j < |gen| ensures gen[i].path != gen[j].path {
          assert gen[i] == prev[i];
        }
      }
    }
  }

  /** The first data path filed under each target yields its metric rule whenever it finds properties. */
  lemma {:induction false} GeneratedComplete(rules: seq<MetricRule>, order: seq<string>, ys: seq<seq<PropertyRule>>,
                                             n: nat, m: nat)
    requires n <= |order| == |ys|
    requires forall i, j :: 0 <= i < j < |order| ==> order[i] != order[j]
    requires m < n && FirstFiled(rules, order, m, TargetPath(rules, order[m])) && |ys[m]| > 0
    ensures MetricRule(TargetPath(rules, order[m]), SortBy(ys[m], PointerOf)) in Generated(rules, order, ys, n)
  {
    if m < n - 1 {
      GeneratedComplete(rules, order, ys, n - 1, m);
    } else {
      SkippedIffTaken(rules, order, m);
    }
  }

  /** Each generated metric rule has properties, ordered by pointer. */
  lemma {:induction false} GeneratedShape(rules: seq<MetricRule>, order: seq<string>, ys: seq<seq<PropertyRule>>, n: nat)
    requires n <= |order| == |ys|
    ensures forall mr :: mr in Generated(rules, order, ys, n) ==> |mr.properties| > 0 && SortedBy(mr.properties, PointerOf)
  {
    if n > 0 {
      GeneratedShape(rules, order, ys, n - 1);
      SortBySorted(ys[n - 1], PointerOf);
      SortByPermutes(ys[n - 1], PointerOf);
      assert |multiset(SortBy(ys[n - 1], PointerOf))| == |multiset(ys[n - 1])|;
    }
  }

  /**
   * The output of `generateRule`: ordered by path with no path twice, each metric rule
   * holding properties ordered by pointer.
   */
  lemma GenerateRuleSorted(data: map<string, Json>, order: seq<string>, keyTypes: seq<KeyType>, root: string,
                           rules: seq<MetricRule>)
    requires Collector.Enumerates(order, data) && Visitable(data, order, root, rules)
    ensures var out := SortBy(Generated(rules, order, Yields(data, order, keyTypes, root, rules), |order|), PathOf);
            && SortedBy(out, PathOf)
            && (forall k, l :: 0 <= k < l < |out| ==> out[k].path != out[l].path)
            && (forall k :: 0 <= k < |out| ==> |out[k].properties| > 0 && SortedBy(out[k].properties, PointerOf))
  {
    var ys := Yields(data, order, keyTypes, root, rules);
    var gen := Generated(rules, order, ys, |order|);
    SortBySorted(gen, PathOf);
    SortByPermutes(gen, PathOf);
    GeneratedDistinct(rules, order, ys, |order|);
    assert DistinctKeys(gen, PathOf);
    SortByDistinct(gen, PathOf);
    GeneratedShape(rules, order, ys, |order|);
    var out := SortBy(gen, PathOf);
    forall k | 0 <= k < |out| ensures |out[k].properties| > 0 && SortedBy(out[k].properties, PointerOf) {
      assert out[k] in multiset(gen);
    }
  }

  /**
   * Every metric rule in the output is filed under its path by the first data path with that
   * target, and holds what that path's document yields, ordered by pointer.
   */
  lemma GenerateRuleSound(data: map<string, Json>, order: seq<string>, keyTypes: seq<KeyType>, root: string,
                          rules: seq<MetricRule>, mr: MetricRule)
    requires Collector.Enumerates(order, data) && Visitable(data, order, root, rules)
    requires mr in SortBy(Generated(rules, order, Yields(data, order, keyTypes, root, rules), |order|), PathOf)
    ensures exists m :: && 0 <= m < |order| && FirstFiled(rules, order, m, mr.path)
                        && |Found(data, order[m], mr.path, keyTypes, root)| > 0
                        && mr.properties == SortBy(Found(data, order[m], mr.path, keyTypes, root), PointerOf)
  {
    var ys := Yields(data, order, keyTypes, root, rules);
    var gen := Generated(rules, order, ys, |order|);
    SortByPermutes(gen, PathOf);
    assert mr in multiset(gen);
    var k :| 0 <= k < |gen| && gen[k] == mr;
    GeneratedOrigin(rules, order, ys, |order|, k);
    var m :| 0 <= m < |order| && YieldedBy(rules, order, ys, m, mr);
    YieldedFound(data, order, keyTypes, root, rules, m, mr);
  }

  /** What a data path yields is what its document is found to hold under its target. */
  lemma YieldedFound(data: map<string, Json>, order: seq<string>, keyTypes: seq<KeyType>, root: string,
                     rules: seq<MetricRule>, m: nat, mr: MetricRule)
    requires Visitable(data, order, root, rules)
    requires YieldedBy(rules, order, Yields(data, order, keyTypes, root, rules), m, mr)
    ensures m < |order| && order[m] in data && |root| <= |mr.path|
    ensures |Found(data, order[m], mr.path, keyTypes, root)| > 0
    ensures mr.properties == SortBy(Found(data, order[m], mr.path, keyTypes, root), PointerOf)
  {
  }

  /** Whatever the first data path filed under a path yields is in the output, when it finds properties. */
  lemma GenerateRuleComplete(data: map<string, Json>, order: seq<string>, keyTypes: seq<KeyType>, root: string,
                             rules: seq<MetricRule>, m: nat)
    requires Collector.Enumerates(order, data) && Visitable(data, order, root, rules)
    requires m < |order| && FirstFiled(rules, order, m, TargetPath(rules, order[m]))
    requires |Found(data, order[m], TargetPath(rules, order[m]), keyTypes, root)| > 0
    ensures var t := TargetPath(rules, order[m]);
            MetricRule(t, SortBy(Found(data, order[m], t, keyTypes, root), PointerOf))
              in SortBy(Generated(rules, order, Yields(data, order, keyTypes, root, rules), |order|), PathOf)
  {
    var ys := Yields(data, order, keyTypes, root, rules);
    var gen := Generated(rules, order, ys, |order|);
    GeneratedComplete(rules, order, ys, |order|, m);
    SortByMembers(gen, PathOf);
  }
}
