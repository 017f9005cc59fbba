/**
 * The walk over the Redfish resource graph (redfish/redfish.go): starting from the
 * configured root, fetch each resource, store the document under its path, and follow
 * every string `@odata.id` found anywhere inside it. Excluded paths and paths already
 * stored are skipped, which is what makes the walk terminate on cyclic link graphs.
 *
 * The HTTP exchange is a finite map from path to the server's answer: a path that is
 * absent stands for a transport error.
 */
module Redfish {
  import opened Wrappers
  import opened JsonValue
  import opened Rule

  /** The server's answer for one path: the status code and, when the body parses as JSON, the document. */
  datatype Response = Response(status: int, body: Option<Json>)

  /** `http.StatusOK`: the only status whose body is kept. */
  const StatusOK: int := 200

  const OdataId: string := "@odata.id"

  /* ---------- the links `follow` visits ---------- */

  /**
   * The paths `follow` passes to `get` for a document, in visiting order: the string
   * values of `@odata.id` fields, at any depth; other fields and array elements are
   * descended into; scalars have none.
   */
  function Links(j: Json): seq<string>
    decreases Size(j), 0
  {
    match j
    case JObj(fs) => FieldsLinks(fs)
    case JArr(es) => ElemsLinks(es)
    case _ => []
  }

  /** The links one field contributes: a string `@odata.id` is one link; a non-string one none. */
  function FieldLinks(f: Field): seq<string>
    decreases Size(f.value), 1
  {
    if f.key != OdataId then Links(f.value)
    else if f.value.JStr? then [f.value.s]
    else []
  }

  function FieldsLinks(fs: seq<Field>): seq<string>
    decreases FieldsSize(fs), 2
  {
    if fs == [] then []
    else FieldsLinks(fs[..|fs| - 1]) + FieldLinks(fs[|fs| - 1])
  }

  function ElemsLinks(es: seq<Json>): seq<string>
    decreases ElemsSize(es), 2
  {
    if es == [] then []
    else ElemsLinks(es[..|es| - 1]) + Links(es[|es| - 1])
  }

  lemma {:induction false} FieldsLinksMembers(fs: seq<Field>, l: string)
    ensures l in FieldsLinks(fs) <==> exists k :: 0 <= k < |fs| && l in FieldLinks(fs[k])
  {
    if fs != [] {
      var init := fs[..|fs| - 1];
      FieldsLinksMembers(init, l);
      if l in FieldsLinks(init) {
        var k :| 0 <= k < |init| && l in FieldLinks(init[k]);
        assert fs[k] == init[k];
      }
      if exists k :: 0 <= k < |fs| && l in FieldLinks(fs[k]) {
        var k :| 0 <= k < |fs| && l in FieldLinks(fs[k]);
        if k < |fs| - 1 {
          assert fs[k] == init[k];
        }
      }
    }
  }

  lemma {:induction false} ElemsLinksMembers(es: seq<Json>, l: string)
    ensures l in ElemsLinks(es) <==> exists k :: 0 <= k < |es| && l in Links(es[k])
  {
    if es != [] {
      var init := es[..|es| - 1];
      ElemsLinksMembers(init, l);
      if l in ElemsLinks(init) {
        var k :| 0 <= k < |init| && l in Links(init[k]);
        assert es[k] == init[k];
      }
      if exists k :: 0 <= k < |es| && l in Links(es[k]) {
        var k :| 0 <= k < |es| && l in Links(es[k]);
        if k < |es| - 1 {
          assert es[k] == init[k];
        }
      }
    }
  }

  lemma FieldsLinksSnoc(fs: seq<Field>, i: nat)
    requires i < |fs|
    ensures FieldsLinks(fs[..i + 1]) == FieldsLinks(fs[..i]) + FieldLinks(fs[i])
  {
    assert fs[..i + 1][..i] == fs[..i];
  }

  lemma ElemsLinksSnoc(es: seq<Json>, i: nat)
    requires i < |es|
    ensures ElemsLinks(es[..i + 1]) == ElemsLinks(es[..i]) + Links(es[i])
  {
    assert es[..i + 1][..i] == es[..i];
  }

  lemma SubsetCardinality(a: set<string>, b: set<string>)
    requires a <= b
    ensures |a| <= |b|
  {
    if a != {} {
      var x :| x in a;
      SubsetCardinality(a - {x}, b - {x});
    }
  }

  /* ---------- facts about snapshots ---------- */

  /** Every link of `links` that is one of the `accepted` paths is one of `keys`. */
  ghost predicate HandledIn(links: seq<string>, keys: set<string>, accepted: set<string>)
  {
    forall l :: l in links && l in accepted ==> l in keys
  }

  lemma HandledGrows(links: seq<string>, k1: set<string>, k2: set<string>, accepted: set<string>)
    requires HandledIn(links, k1, accepted) && k1 <= k2
    ensures HandledIn(links, k2, accepted)
  {
  }

  lemma HandledConcat(a: seq<string>, b: seq<string>, keys: set<string>, accepted: set<string>)
    requires HandledIn(a, keys, accepted) && HandledIn(b, keys, accepted)
    ensures HandledIn(a + b, keys, accepted)
  {
  }

  /** `m2` holds every entry of `m1` unchanged. */
  ghost predicate Extends(m2: map<string, Json>, m1: map<string, Json>)
  {
    forall p :: p in m1 ==> p in m2 && m2[p] == m1[p]
  }

  /** Every document stored in `m2` but not in `m1` has all its accepted links stored in `m2`. */
  ghost predicate NewHandled(m2: map<string, Json>, m1: map<string, Json>, accepted: set<string>)
  {
    forall p :: p in m2 && p !in m1 ==> HandledIn(Links(m2[p]), m2.Keys, accepted)
  }

  lemma ExtendsTransitive(m3: map<string, Json>, m2: map<string, Json>, m1: map<string, Json>)
    requires Extends(m3, m2) && Extends(m2, m1)
    ensures Extends(m3, m1)
  {
  }

  lemma NewHandledTransitive(m3: map<string, Json>, m2: map<string, Json>, m1: map<string, Json>, accepted: set<string>)
    requires Extends(m3, m2) && Extends(m2, m1)
    requires NewHandled(m3, m2, accepted) && NewHandled(m2, m1, accepted)
    ensures NewHandled(m3, m1, accepted)
  {
    forall p | p in m3 && p !in m1 ensures HandledIn(Links(m3[p]), m3.Keys, accepted) {
      if p in m2 {
        HandledGrows(Links(m2[p]), m2.Keys, m3.Keys, accepted);
      }
    }
  }

  /**
   * One step of `follow`'s loops: the links visited so far were handled in `before`, the
   * step's own links are handled in `after`, and `after` extends `before`, which extends
   * `start`; then all of them are handled in `after`, which extends `start`.
   */
  lemma StepHandled(done: seq<string>, step: seq<string>, start: map<string, Json>,
                    before: map<string, Json>, after: map<string, Json>, accepted: set<string>)
    requires Extends(before, start) && NewHandled(before, start, accepted)
    requires Extends(after, before) && NewHandled(after, before, accepted)
    requires HandledIn(done, before.Keys, accepted) && HandledIn(step, after.Keys, accepted)
    ensures Extends(after, start) && NewHandled(after, start, accepted)
    ensures HandledIn(done + step, after.Keys, accepted)
  {
    HandledGrows(done, before.Keys, after.Keys, accepted);
    HandledConcat(done, step, after.Keys, accepted);
    ExtendsTransitive(after, before, start);
    NewHandledTransitive(after, before, start, accepted);
  }

  /**
   * The end of `get`: `stored` is `before` with `path` added, and following the stored
   * document handled its links; then everything stored since `before` is handled.
   */
  lemma StoreHandled(before: map<string, Json>, after: map<string, Json>,
                     path: string, doc: Json, accepted: set<string>)
    requires path !in before
    requires Extends(after, before[path := doc]) && NewHandled(after, before[path := doc], accepted)
    requires HandledIn(Links(doc), after.Keys, accepted)
    ensures Extends(after, before) && NewHandled(after, before, accepted)
  {
    forall p | p in after && p !in before
      ensures HandledIn(Links(after[p]), after.Keys, accepted)
    {
      if p == path {
        assert after[p] == doc;
      }
    }
  }

  /* ---------- the client ---------- */

  class RedfishClient {
    /** The traversal rule's root and compiled exclusion pattern, copied from the rule. */
    const root: string
    const excludeRegexp: Option<string>
    /** Regular-expression matching, a library call: whether the pattern matches the path. */
    const matchString: (string, string) -> bool
    /** What the server answers for each path; a missing path is a transport error. */
    const server: map<string, Response>

    /** The documents stored so far, by path. */
    var dataMap: map<string, Json>
    /** For each stored path but the root, the stored path whose document linked to it. */
    ghost var parent: map<string, string>
    /** The number of links from the root to each stored path along `parent`. */
    ghost var depth: map<string, nat>

    constructor (rule: TraverseRule, matchString: (string, string) -> bool, server: map<string, Response>)
      ensures root == rule.root && excludeRegexp == rule.excludeRegexp
      ensures this.matchString == matchString && this.server == server
      ensures dataMap == map[] && Valid()
    {
      root := rule.root;
      excludeRegexp := rule.excludeRegexp;
      this.matchString := matchString;
      this.server := server;
      dataMap := map[];
      parent := map[];
      depth := map[];
    }

    /** The exclusion test at the top of `get`: only when a pattern was compiled. */
    predicate Excluded(path: string)
    {
      excludeRegexp.Some? && matchString(excludeRegexp.value, path)
    }

    /** The document `get` stores for a path: only a status-200 answer whose body parsed. */
    function Fetch(path: string): (r: Option<Json>)
      ensures r.Some? <==> path in server && server[path].status == StatusOK && server[path].body.Some?
      ensures r.Some? ==> r == server[path].body
    {
      if path in server && server[path].status == StatusOK then server[path].body else None
    }

    /** `get` stores `path` when it is not excluded and its fetch succeeds. */
    ghost predicate Accepts(path: string)
    {
      !Excluded(path) && Fetch(path).Some?
    }

    /** The links of the document a path fetches to; none when the fetch fails. */
    ghost function FetchedLinks(path: string): seq<string>
    {
      match Fetch(path)
      case Some(doc) => Links(doc)
      case None => []
    }

    /** A chain of links over accepted paths, starting at one of `starts`. */
    ghost predicate IsChainFrom(starts: seq<string>, chain: seq<string>)
    {
      && |chain| >= 1
      && chain[0] in starts
      && (forall i :: 0 <= i < |chain| ==> Accepts(chain[i]))
      && (forall i :: 0 < i < |chain| ==> chain[i] in FetchedLinks(chain[i - 1]))
    }

    /** A chain of links from the root over accepted paths. */
    ghost predicate IsChain(chain: seq<string>)
    {
      IsChainFrom([root], chain)
    }

    /** `path` can be reached from one of `starts` by following links through accepted paths. */
    ghost predicate LinkedFrom(starts: seq<string>, path: string)
    {
      exists chain :: IsChainFrom(starts, chain) && chain[|chain| - 1] == path
    }

    /** Every path stored in `m2` but not in `m1` can be reached from one of `starts`. */
    ghost predicate NewLinked(m2: map<string, Json>, m1: map<string, Json>, starts: seq<string>)
    {
      forall p :: p in m2 && p !in m1 ==> LinkedFrom(starts, p)
    }

    lemma LinkedWiden(a: seq<string>, b: seq<string>, p: string)
      requires LinkedFrom(a, p) && forall l :: l in a ==> l in b
      ensures LinkedFrom(b, p)
    {
      var chain :| IsChainFrom(a, chain) && chain[|chain| - 1] == p;
      assert IsChainFrom(b, chain);
    }

    /** Two steps of a loop: what each added is reachable from its own links. */
    lemma NewLinkedStep(m1: map<string, Json>, m2: map<string, Json>, m3: map<string, Json>,
                        a: seq<string>, b: seq<string>)
      requires NewLinked(m2, m1, a) && NewLinked(m3, m2, b)
      ensures NewLinked(m3, m1, a + b)
    {
      forall p | p in m3 && p !in m1 ensures LinkedFrom(a + b, p) {
        if p in m2 {
          LinkedWiden(a, a + b, p);
        } else {
          LinkedWiden(b, a + b, p);
        }
      }
    }

    /**
     * The end of `get`: `path` was stored, then following its document added paths
     * reachable from the document's links; all of them are reachable from `path`.
     */
    lemma NewLinkedStore(before: map<string, Json>, after: map<string, Json>, path: string, doc: Json)
      requires Accepts(path) && Fetch(path) == Some(doc)
      requires NewLinked(after, before[path := doc], Links(doc))
      ensures NewLinked(after, before, [path])
    {
      forall p | p in after && p !in before ensures LinkedFrom([path], p) {
        if p == path {
          assert IsChainFrom([path], [path]);
        } else {
          var chain :| IsChainFrom(Links(doc), chain) && chain[|chain| - 1] == p;
          var longer := [path] + chain;
          forall i | 0 < i < |longer| ensures longer[i] in FetchedLinks(longer[i - 1]) {
            if i > 1 {
              assert longer[i] == chain[i - 1] && longer[i - 1] == chain[i - 2];
            }
          }
          assert longer[|longer| - 1] == p;
          assert IsChainFrom([path], longer);
        }
      }
    }

    /** `path` can be reached from the root by following links through accepted paths. */
    ghost predicate Reachable(path: string)
    {
      exists chain :: IsChain(chain) && chain[|chain| - 1] == path
    }

    /**
     * A snapshot the walk can produce: only accepted paths, each with its fetched document,
     * each but the root linked from a stored document one link closer to the root.
     */
    ghost predicate Stored(m: map<string, Json>, parent: map<string, string>, depth: map<string, nat>)
    {
      && parent.Keys == m.Keys - {root}
      && depth.Keys == m.Keys
      && (forall p :: p in m ==> Accepts(p) && m[p] == Fetch(p).value)
      && (root in depth ==> depth[root] == 0)
      && (forall p :: p in parent ==>
            && parent[p] in m
            && p in Links(m[parent[p]])
            && depth[p] == depth[parent[p]] + 1)
    }

    ghost predicate Valid()
      reads this
    {
      Stored(dataMap, parent, depth)
    }

    /** The paths `get` would store: finitely many, since each has an answer from the server. */
    ghost function AcceptedPaths(): set<string>
    {
      set p | p in server && Accepts(p)
    }

    lemma AcceptedPathsMembers(p: string)
      ensures p in AcceptedPaths() <==> Accepts(p)
    {
    }

    /** Accepted paths not among `keys`: with the stored paths as `keys`, the walk's termination measure. */
    ghost function Unstored(keys: set<string>): nat
    {
      |AcceptedPaths() - keys|
    }

    /** Storing one more accepted path leaves strictly fewer accepted paths unstored. */
    lemma StoreShrinks(before: map<string, Json>, path: string, doc: Json)
      requires Accepts(path) && path !in before
      ensures Unstored(before[path := doc].Keys) < Unstored(before.Keys)
    {
      assert AcceptedPaths() - before[path := doc].Keys == (AcceptedPaths() - before.Keys) - {path};
    }

    /**
     * Storing an accepted path linked from a stored one (or the root) keeps the snapshot
     * one the walk can produce, with the path's parent and depth recorded.
     */
    lemma StoreKeepsStored(m: map<string, Json>, parent: map<string, string>, depth: map<string, nat>,
                           path: string, owner: string, doc: Json)
        returns (parent2: map<string, string>, depth2: map<string, nat>)
      requires Stored(m, parent, depth)
      requires !Excluded(path) && Fetch(path) == Some(doc) && path !in m
      requires path == root || (owner in m && path in Links(m[owner]))
      ensures Stored(m[path := doc], parent2, depth2)
    {
      if path == root {
        parent2, depth2 := parent, depth[path := 0];
      } else {
        parent2, depth2 := parent[path := owner], depth[path := depth[owner] + 1];
      }
    }

    /**
     * `get`: store the document of `path` unless it is excluded, already stored, or its
     * fetch fails, then follow its links. The map only grows and stored documents are
     * never replaced; `path` ends up stored exactly when it was stored before or is
     * accepted; everything newly stored has all its accepted links stored.
     */
    method Get(path: string, ghost owner: string)
      requires Valid()
      requires (dataMap == map[] && path == root) || (owner in dataMap && path in Links(dataMap[owner]))
      modifies this
      ensures Valid()
      ensures Extends(dataMap, old(dataMap))
      ensures path in dataMap <==> path in old(dataMap) || Accepts(path)
      ensures !Accepts(path) ==> dataMap == old(dataMap)
      ensures path in old(dataMap) ==> dataMap == old(dataMap)
      ensures NewHandled(dataMap, old(dataMap), AcceptedPaths())
      ensures NewLinked(dataMap, old(dataMap), [path])
      ensures Unstored(dataMap.Keys) <= Unstored(old(dataMap).Keys)
      decreases Unstored(dataMap.Keys), 0, 0
    {
      if Excluded(path) {
        return;
      }
      if path in dataMap {
        return;
      }
      var fetched := Fetch(path);
      if fetched.None? {
        return;
      }
      var parsed := fetched.value;
      ghost var before := dataMap;
      StoreShrinks(before, path, parsed);
      parent, depth := StoreKeepsStored(dataMap, parent, depth, path, owner, parsed);
      dataMap := dataMap[path := parsed];
      Follow(parsed, path);
      StoreHandled(before, dataMap, path, parsed, AcceptedPaths());
      NewLinkedStore(before, dataMap, path, parsed);
    }

    /**
     * `follow`: visit the fields of an object or the elements of an array. Afterwards
     * every accepted link of `doc` is stored.
     */
    method Follow(doc: Json, ghost owner: string)
      requires Valid()
      requires owner in dataMap && forall l :: l in Links(doc) ==> l in Links(dataMap[owner])
      modifies this
      ensures Valid()
      ensures Extends(dataMap, old(dataMap))
      ensures HandledIn(Links(doc), dataMap.Keys, AcceptedPaths())
      ensures NewLinked(dataMap, old(dataMap), Links(doc))
      ensures NewHandled(dataMap, old(dataMap), AcceptedPaths())
      ensures Unstored(dataMap.Keys) <= Unstored(old(dataMap).Keys)
      decreases Unstored(dataMap.Keys), Size(doc), 0
    {
      match doc
      case JObj(fs) => FollowFields(fs, owner);
      case JArr(es) => FollowElems(es, owner);
      case _ =>
    }

    /**
     * The object loop of `follow`: a string `@odata.id` is fetched, a non-string one
     * ignored, any other field followed.
     */
    method FollowFields(fs: seq<Field>, ghost owner: string)
      requires Valid()
      requires owner in dataMap && forall l :: l in FieldsLinks(fs) ==> l in Links(dataMap[owner])
      modifies this
      ensures Valid()
      ensures Extends(dataMap, old(dataMap))
      ensures HandledIn(FieldsLinks(fs), dataMap.Keys, AcceptedPaths())
      ensures NewLinked(dataMap, old(dataMap), FieldsLinks(fs))
      ensures NewHandled(dataMap, old(dataMap), AcceptedPaths())
      ensures Unstored(dataMap.Keys) <= Unstored(old(dataMap).Keys)
      decreases Unstored(dataMap.Keys), FieldsSize(fs), 2
    {
      for i := 0 to |fs|
        invariant Valid() && owner in dataMap
        invariant Extends(dataMap, old(dataMap))
        invariant HandledIn(FieldsLinks(fs[..i]), dataMap.Keys, AcceptedPaths())
        invariant NewLinked(dataMap, old(dataMap), FieldsLinks(fs[..i]))
        invariant NewHandled(dataMap, old(dataMap), AcceptedPaths())
        invariant Unstored(dataMap.Keys) <= Unstored(old(dataMap).Keys)
      {
        var f := fs[i];
        forall l | l in FieldLinks(f) ensures l in Links(dataMap[owner]) {
          FieldsLinksMembers(fs, l);
        }
        FieldSmaller(fs, i);
        ghost var before := dataMap;
        FollowField(f, owner);
        FieldsLinksSnoc(fs, i);
        StepHandled(FieldsLinks(fs[..i]), FieldLinks(f), old(dataMap), before, dataMap, AcceptedPaths());
        NewLinkedStep(old(dataMap), before, dataMap, FieldsLinks(fs[..i]), FieldLinks(f));
      }
      assert fs[..|fs|] == fs;
    }

    /**
     * One field in the object loop of `follow`: a string `@odata.id` is fetched, a
     * non-string one ignored, any other field followed.
     */
    method FollowField(f: Field, ghost owner: string)
      requires Valid()
      requires owner in dataMap && forall l :: l in FieldLinks(f) ==> l in Links(dataMap[owner])
      modifies this
      ensures Valid()
      ensures Extends(dataMap, old(dataMap))
      ensures HandledIn(FieldLinks(f), dataMap.Keys, AcceptedPaths())
      ensures NewLinked(dataMap, old(dataMap), FieldLinks(f))
      ensures f.key == OdataId && !f.value.JStr? ==> dataMap == old(dataMap)
      ensures NewHandled(dataMap, old(dataMap), AcceptedPaths())
      ensures Unstored(dataMap.Keys) <= Unstored(old(dataMap).Keys)
      decreases Unstored(dataMap.Keys), Size(f.value), 1
    {
      if f.key != OdataId {
        Follow(f.value, owner);
      } else if f.value.JStr? {
        Get(f.value.s, owner);
        AcceptedPathsMembers(f.value.s);
      }
    }

    /** The array loop of `follow`: every element is followed. */
    method FollowElems(es: seq<Json>, ghost owner: string)
      requires Valid()
      requires owner in dataMap && forall l :: l in ElemsLinks(es) ==> l in Links(dataMap[owner])
      modifies this
      ensures Valid()
      ensures Extends(dataMap, old(dataMap))
      ensures HandledIn(ElemsLinks(es), dataMap.Keys, AcceptedPaths())
      ensures NewLinked(dataMap, old(dataMap), ElemsLinks(es))
      ensures NewHandled(dataMap, old(dataMap), AcceptedPaths())
      ensures Unstored(dataMap.Keys) <= Unstored(old(dataMap).Keys)
      decreases Unstored(dataMap.Keys), ElemsSize(es), 1
    {
      for i := 0 to |es|
        invariant Valid() && owner in dataMap
        invariant Extends(dataMap, old(dataMap))
        invariant HandledIn(ElemsLinks(es[..i]), dataMap.Keys, AcceptedPaths())
        invariant NewLinked(dataMap, old(dataMap), ElemsLinks(es[..i]))
        invariant NewHandled(dataMap, old(dataMap), AcceptedPaths())
        invariant Unstored(dataMap.Keys) <= Unstored(old(dataMap).Keys)
      {
        var v := es[i];
        forall l | l in Links(v) ensures l in Links(dataMap[owner]) {
          ElemsLinksMembers(es, l);
        }
        ElemSmaller(es, i);
        ghost var before := dataMap;
        Follow(v, owner);
        ElemsLinksSnoc(es, i);
        StepHandled(ElemsLinks(es[..i]), Links(v), old(dataMap), before, dataMap, AcceptedPaths());
        NewLinkedStep(old(dataMap), before, dataMap, ElemsLinks(es[..i]), Links(v));
      }
      assert es[..|es|] == es;
    }

    /** Every stored path is reachable from the root. */
    lemma StoredReachable(p: string)
      requires Valid() && p in dataMap
      ensures Reachable(p)
      decreases depth[p]
    {
      if p == root {
        assert IsChain([root]);
      } else {
        var q := parent[p];
        StoredReachable(q);
        var chain :| IsChain(chain) && chain[|chain| - 1] == q;
        var longer := chain + [p];
        assert longer[|longer| - 1] == p;
        assert IsChain(longer);
      }
    }

    /** With the root stored when accepted and every stored document's links handled, every chain ends at a stored path. */
    lemma {:induction false} ChainStored(chain: seq<string>)
      requires Valid() && IsChain(chain)
      requires Accepts(root) ==> root in dataMap
      requires NewHandled(dataMap, map[], AcceptedPaths())
      ensures chain[|chain| - 1] in dataMap
    {
      if |chain| > 1 {
        var prefix := chain[..|chain| - 1];
        assert IsChain(prefix);
        ChainStored(prefix);
        var q := prefix[|prefix| - 1];
        AcceptedPathsMembers(chain[|chain| - 1]);
        assert HandledIn(Links(dataMap[q]), dataMap.Keys, AcceptedPaths());
      }
    }

    /**
     * `traverse`: start from an empty map and `get` the root. The result holds exactly
     * the paths reachable from the root through `@odata.id` links over accepted paths,
     * each with the document its fetch returned.
     */
    method Traverse() returns (result: map<string, Json>)
      modifies this
      ensures result == dataMap && Valid()
      ensures forall p :: p in result ==> !Excluded(p) && Fetch(p) == Some(result[p])
      ensures forall p :: p in result <==> Reachable(p)
    {
      dataMap := map[];
      parent := map[];
      depth := map[];
      Get(root, root);
      result := dataMap;
      forall p | p in result ensures Reachable(p) {
        StoredReachable(p);
      }
      forall p | Reachable(p) ensures p in result {
        var chain :| IsChain(chain) && chain[|chain| - 1] == p;
        ChainStored(chain);
      }
    }
  }
}
