/**
 The codec's JSON merge patch: what it computes, when it agrees with
 section 2 of RFC 7396, and what it leaves alone.
 */
module JsonMerge {
  import opened Wrappers

  datatype Json =
    | JNull
    | JBool(b: bool)
    | JNumber(n: real)
    | JString(s: string)
    | JArray(items: seq<Json>)
    | JObject(members: map<string, Json>)

  // ---------- the code ----------

  predicate Deleted(patch: map<string, Json>, k: string) {
    k in patch && patch[k].JNull?
  }

  predicate BothObjects(base: map<string, Json>, patch: map<string, Json>, k: string) {
    k in base && k in patch && base[k].JObject? && patch[k].JObject?
  }

  /** mergeMaps on two JSON objects. */
  function Merge(base: Json, patch: Json): (r: Json)
    requires base.JObject? && patch.JObject?
    ensures r.JObject?
    decreases patch
  {
    var b, p := base.members, patch.members;
    JObject(map k | k in b.Keys + p.Keys && !Deleted(p, k) ::
              if k !in p then b[k]
              else if BothObjects(b, p, k) then Merge(b[k], p[k])
              else p[k])
  }

  /** The loop of mergeMaps; the order in which the patch's keys come up does not matter. */
  method MergeMaps(base: map<string, Json>, patch: map<string, Json>) returns (result: map<string, Json>)
    ensures JObject(result) == Merge(JObject(base), JObject(patch))
    ensures forall k :: k in result <==> (k in base || k in patch) && !(k in patch && patch[k].JNull?)
    ensures forall k | k in result && k !in patch :: result[k] == base[k]
    ensures forall k | k in result && k in patch && !(k in base && base[k].JObject? && patch[k].JObject?) ::
      result[k] == patch[k]
    decreases JObject(patch)
  {
    ghost var goal := Merge(JObject(base), JObject(patch)).members;
    result := base;
    var todo := patch.Keys;
    while todo != {}
      invariant todo <= patch.Keys
      invariant forall k | k in patch && k !in todo ::
        (k in result <==> k in goal) && (k in goal ==> result[k] == goal[k])
      invariant forall k | k !in patch || k in todo ::
        (k in result <==> k in base) && (k in base ==> result[k] == base[k])
      decreases todo
    {
      var k :| k in todo;
      todo := todo - {k};
      var v := patch[k];
      if v.JNull? {
        result := result - {k};
      } else if k in result && result[k].JObject? && v.JObject? {
        var merged := MergeMaps(result[k].members, v.members);
        result := result[k := JObject(merged)];
      } else {
        result := result[k := v];
      }
    }
    assert result == goal;
  }

  datatype MergeError = BadBase | BadPatch

  /** A JSON null decodes into a nil map, which reads as an empty object. */
  function AsMap(j: Json): Option<Json> {
    if j.JObject? then Some(j) else if j.JNull? then Some(JObject(map[])) else None
  }

  function MergePatch(base: Json, patch: Json): Result<Json, MergeError> {
    match AsMap(base)
    case None => Err(BadBase)
    case Some(b) =>
      match AsMap(patch)
      case None => Err(BadPatch)
      case Some(p) => Ok(Merge(b, p))
  }

  // ---------- section 2 of RFC 7396 ----------

  function Members(target: Option<Json>): map<string, Json> {
    if target.Some? && target.value.JObject? then target.value.members else map[]
  }

  function Lookup(m: map<string, Json>, k: string): Option<Json> {
    if k in m then Some(m[k]) else None
  }

  function Rfc(target: Option<Json>, patch: Json): Json
    decreases patch
  {
    if patch.JObject? then
      var t, p := Members(target), patch.members;
      JObject(map k | k in t.Keys + p.Keys && !Deleted(p, k) ::
                if k in p then Rfc(Lookup(t, k), p[k]) else t[k])
    else patch
  }

  // ---------- where they agree ----------

  /** No null under any chain of object members. */
  predicate NullFree(v: Json)
    decreases v
  {
    v.JObject? ==> forall k | k in v.members :: !v.members[k].JNull? && NullFree(v.members[k])
  }

  /** Nulls nested in the patch sit only under keys that hold objects in the base. */
  predicate NullsMeetObjects(base: Json, patch: Json)
    requires base.JObject? && patch.JObject?
    decreases patch
  {
    var b, p := base.members, patch.members;
    forall k | k in p ::
      if BothObjects(b, p, k) then NullsMeetObjects(b[k], p[k]) else NullFree(p[k])
  }

  /** The RFC copies a value verbatim onto a non-object exactly when the value holds no nested null. */
  lemma {:induction false} RfcCopies(target: Option<Json>, v: Json)
    requires !(target.Some? && target.value.JObject?)
    ensures Rfc(target, v) == v <==> NullFree(v)
    decreases v
  {
    if v.JObject? {
      var r := Rfc(target, v).members;
      forall k | k in v.members
        ensures Rfc(None, v.members[k]) == v.members[k] <==> NullFree(v.members[k])
      {
        RfcCopies(None, v.members[k]);
      }
      if NullFree(v) {
        assert r == v.members;
      }
      assert r == v.members ==> forall k | k in v.members :: k in r && r[k] == v.members[k];
    }
  }

  /** Merge computes RFC 7396 on exactly these inputs. */
  lemma {:induction false} MergeIsRfc(base: Json, patch: Json)
    requires base.JObject? && patch.JObject?
    ensures Merge(base, patch) == Rfc(Some(base), patch) <==> NullsMeetObjects(base, patch)
    decreases patch
  {
    var b, p := base.members, patch.members;
    var m, r := Merge(base, patch).members, Rfc(Some(base), patch).members;
    assert m.Keys == r.Keys;
    forall k | k in p && !p[k].JNull?
      ensures m[k] == r[k] <==> if BothObjects(b, p, k) then NullsMeetObjects(b[k], p[k]) else NullFree(p[k])
    {
      if BothObjects(b, p, k) {
        MergeIsRfc(b[k], p[k]);
        assert m[k] == Merge(b[k], p[k]) && r[k] == Rfc(Some(b[k]), p[k]);
      } else if p[k].JObject? {
        RfcCopies(Lookup(b, k), p[k]);
        assert m[k] == p[k] && r[k] == Rfc(Lookup(b, k), p[k]);
      } else {
        assert m[k] == p[k] && r[k] == Rfc(Lookup(b, k), p[k]) == p[k];
      }
    }
    assert forall k | k in m && k !in p :: m[k] == r[k];
    AgreeIff(base, patch, m, r);
  }

  /** Two results that agree key by key under the condition agree as a whole under it. */
  lemma AgreeIff(base: Json, patch: Json, m: map<string, Json>, r: map<string, Json>)
    requires base.JObject? && patch.JObject? && m.Keys == r.Keys
    requires forall k | k in patch.members && !patch.members[k].JNull? :: k in m
    requires forall k | k in m && k !in patch.members :: m[k] == r[k]
    requires forall k | k in m && k in patch.members :: !patch.members[k].JNull?
    requires forall k | k in patch.members && !patch.members[k].JNull? ::
      m[k] == r[k] <==>
        if BothObjects(base.members, patch.members, k) then NullsMeetObjects(base.members[k], patch.members[k])
        else NullFree(patch.members[k])
    ensures m == r <==> NullsMeetObjects(base, patch)
  {
    if NullsMeetObjects(base, patch) {
      assert forall k | k in m :: m[k] == r[k];
    } else if m == r {
      forall k | k in patch.members
        ensures if BothObjects(base.members, patch.members, k)
          then NullsMeetObjects(base.members[k], patch.members[k]) else NullFree(patch.members[k])
      {
        assert patch.members[k].JNull? ==> NullFree(patch.members[k]);
      }
    }
  }

  lemma {:induction false} MergeWithItself(v: Json)
    requires v.JObject?
    ensures Merge(v, v) == v <==> NullFree(v)
    decreases v
  {
    var m := Merge(v, v).members;
    forall k | k in v.members && v.members[k].JObject?
      ensures Merge(v.members[k], v.members[k]) == v.members[k] <==> NullFree(v.members[k])
    {
      MergeWithItself(v.members[k]);
    }
    if NullFree(v) {
      assert m == v.members;
    } else if m == v.members {
      forall k | k in v.members
        ensures !v.members[k].JNull? && NullFree(v.members[k])
      {
        assert k in m && m[k] == v.members[k];
      }
    }
  }

  /** Applying a patch twice is the same as once on exactly the inputs where the code follows the RFC. */
  lemma {:induction false} MergeIsIdempotent(base: Json, patch: Json)
    requires base.JObject? && patch.JObject?
    ensures Merge(Merge(base, patch), patch) == Merge(base, patch) <==> NullsMeetObjects(base, patch)
    decreases patch
  {
    var b, p := base.members, patch.members;
    var once := Merge(base, patch).members;
    var twice := Merge(Merge(base, patch), patch).members;
    assert once.Keys == twice.Keys;
    forall k | k in p && !p[k].JNull?
      ensures once[k] == twice[k] <==> if BothObjects(b, p, k) then NullsMeetObjects(b[k], p[k]) else NullFree(p[k])
    {
      if BothObjects(b, p, k) {
        MergeIsIdempotent(b[k], p[k]);
        assert once[k] == Merge(b[k], p[k]) && twice[k] == Merge(once[k], p[k]);
      } else if p[k].JObject? {
        MergeWithItself(p[k]);
        assert once[k] == p[k] && twice[k] == Merge(p[k], p[k]);
      } else {
        assert once[k] == p[k] && twice[k] == p[k];
      }
    }
    assert forall k | k in once && k !in p :: once[k] == twice[k];
    AgreeIff(base, patch, once, twice);
  }

  // ---------- the codec's entry point ----------

  /**
   What MergePatch does with whole documents: a null counts as an empty object,
   other non-objects are refused, and objects merge as the RFC says on exactly
   the inputs where the merge does.
   */
  lemma MergePatchIsRfc(base: Json, patch: Json)
    ensures MergePatch(base, patch) == Err(BadBase) <==> !base.JObject? && !base.JNull?
    ensures MergePatch(base, patch) == Err(BadPatch) <==>
      (base.JObject? || base.JNull?) && !patch.JObject? && !patch.JNull?
    ensures base.JObject? && patch.JObject? ==>
      (MergePatch(base, patch) == Ok(Rfc(Some(base), patch)) <==> NullsMeetObjects(base, patch))
    ensures base.JObject? && patch.JNull? ==> MergePatch(base, patch) == Ok(base)
    ensures base.JNull? ==> MergePatch(base, patch) == MergePatch(JObject(map[]), patch)
  {
    if base.JObject? && patch.JObject? {
      MergeIsRfc(base, patch);
    }
    if base.JObject? {
      assert Merge(base, JObject(map[])).members == base.members;
    }
  }

  /** At the top level the patch overrules the base, its nulls delete, and what it does not name stays. */
  lemma PatchOverrulesBase(base: Json, patch: Json, k: string)
    requires base.JObject? && patch.JObject?
    ensures MergePatch(base, patch).Ok? && MergePatch(base, patch).value.JObject?
    ensures var m := MergePatch(base, patch).value.members;
      && (k in patch.members && !patch.members[k].JNull? && !patch.members[k].JObject? ==>
            k in m && m[k] == patch.members[k])
      && (k in patch.members && patch.members[k].JNull? ==> k !in m)
      && (k !in patch.members ==> Lookup(m, k) == Lookup(base.members, k))
  {
  }

  // ---------- frame ----------

  function At(j: Option<Json>, path: seq<string>): Option<Json>
    decreases |path|
  {
    if path == [] then j
    else if j.Some? && j.value.JObject? then At(Lookup(j.value.members, path[0]), path[1..])
    else None
  }

  /** The patch says something about the path itself or about a prefix of it. */
  predicate Mentions(patch: Json, path: seq<string>)
    decreases |path|
  {
    path == [] || !patch.JObject? || (path[0] in patch.members && Mentions(patch.members[path[0]], path[1..]))
  }

  lemma {:induction false} UnmentionedIsAbsent(v: Json, path: seq<string>)
    requires !Mentions(v, path)
    ensures At(Some(v), path) == None
    decreases |path|
  {
    if path[0] in v.members {
      UnmentionedIsAbsent(v.members[path[0]], path[1..]);
    }
  }

  /** A merge changes no path that the patch does not mention. */
  lemma {:induction false} MergeFrame(base: Json, patch: Json, path: seq<string>)
    requires base.JObject? && patch.JObject? && !Mentions(patch, path)
    ensures At(Some(Merge(base, patch)), path) == At(Some(base), path)
    decreases |path|
  {
    var b, p, k := base.members, patch.members, path[0];
    if k in p {
      if BothObjects(b, p, k) {
        MergeFrame(b[k], p[k], path[1..]);
      } else {
        UnmentionedIsAbsent(p[k], path[1..]);
      }
    }
  }

  /** At any depth, a value of the patch that is neither null nor an object is what the merge holds there. */
  lemma {:induction false} MergeOverrules(base: Json, patch: Json, path: seq<string>, v: Json)
    requires base.JObject? && patch.JObject? && path != []
    requires At(Some(patch), path) == Some(v) && !v.JNull? && !v.JObject?
    ensures At(Some(Merge(base, patch)), path) == Some(v)
    decreases |path|
  {
    var b, p, k := base.members, patch.members, path[0];
    if BothObjects(b, p, k) {
      MergeOverrules(b[k], p[k], path[1..], v);
    }
  }
}
