/**
 * Parsed Redfish documents. An object is its list of fields in document order, which
 * fixes the order in which the traversal and the rule generator visit them (the source
 * iterates a Go map, whose order is unspecified). Numbers are JSON numbers as decoded
 * into float64, modelled as reals.
 */
module JsonValue {
  import opened Wrappers
  import opened Strings

  datatype Field = Field(key: string, value: Json)

  datatype Json =
    | JNull
    | JBool(b: bool)
    | JNum(n: real)
    | JStr(s: string)
    | JArr(elems: seq<Json>)
    | JObj(fields: seq<Field>)

  /** Number of JSON values in a document: a termination measure for walks over it. */
  function Size(j: Json): (n: nat)
    ensures n >= 1
  {
    match j
    case JArr(es) => 1 + ElemsSize(es)
    case JObj(fs) => 1 + FieldsSize(fs)
    case _ => 1
  }

  function ElemsSize(es: seq<Json>): nat
  {
    if es == [] then 0 else ElemsSize(es[..|es| - 1]) + Size(es[|es| - 1])
  }

  function FieldsSize(fs: seq<Field>): nat
  {
    if fs == [] then 0 else FieldsSize(fs[..|fs| - 1]) + Size(fs[|fs| - 1].value)
  }

  lemma {:induction false} ElemSmaller(es: seq<Json>, i: nat)
    requires i < |es|
    ensures Size(es[i]) <= ElemsSize(es)
  {
    if i < |es| - 1 {
      ElemSmaller(es[..|es| - 1], i);
    }
  }

  lemma {:induction false} FieldSmaller(fs: seq<Field>, i: nat)
    requires i < |fs|
    ensures Size(fs[i].value) <= FieldsSize(fs)
  {
    if i < |fs| - 1 {
      FieldSmaller(fs[..|fs| - 1], i);
    }
  }

  /** The value of the first field of an object named `key`; nothing for a non-object. */
  function Member(j: Json, key: string): (r: Option<Json>)
    ensures r.Some? <==> j.JObj? && exists i :: 0 <= i < |j.fields| && j.fields[i].key == key
    ensures r.Some? ==> exists i :: 0 <= i < |j.fields| && j.fields[i] == Field(key, r.value)
  {
    if !j.JObj? then None else FirstMember(j.fields, key)
  }

  function FirstMember(fs: seq<Field>, key: string): (r: Option<Json>)
    ensures r.Some? <==> exists i :: 0 <= i < |fs| && fs[i].key == key
    ensures r.Some? ==> exists i :: 0 <= i < |fs| && fs[i] == Field(key, r.value)
  {
    if fs == [] then None
    else if fs[0].key == key then Some(fs[0].value)
    else
      var r := FirstMember(fs[1..], key);
      assert forall i :: 1 <= i < |fs| ==> fs[i] == fs[1..][i - 1];
      r
  }

  /**
   * gabs' `Search(hierarchy...)` restricted to objects: follow one field per segment;
   * a missing field, or a non-object on the way, gives nothing. No segments: the
   * document itself.
   */
  function Search(j: Json, hierarchy: seq<string>): Option<Json>
  {
    if hierarchy == [] then Some(j)
    else match Member(j, hierarchy[0])
      case None => None
      case Some(v) => Search(v, hierarchy[1..])
  }

  /** gabs' `Path(p)`: `Search` over the `.`-separated parts of `p`. */
  function DotPath(j: Json, p: string): Option<Json>
  {
    Search(j, Split(p, '.'))
  }
}
