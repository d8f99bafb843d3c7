/**
 JSON values, merge patch as in section 2 of RFC 7396, and the diff that the client computes before
 it sends a patch. The laws at the end are what lets two peers exchange diffs in place of objects.
 */
module JsonMerge {
  import opened Options

  /** The members of a JSON object. */
  type Doc = map<string, Json>

  /** Numbers keep their text: nothing here does arithmetic on them. */
  datatype Json =
    | Null
    | Bool(b: bool)
    | Num(text: string)
    | Str(s: string)
    | Arr(items: seq<Json>)
    | Obj(fields: map<string, Json>)

  function FieldsOf(v: Json): Doc {
    if v.Obj? then v.fields else map[]
  }

  /** A member that is not there is treated like null, as RFC 7396 treats an undefined target. */
  function MemberOrNull(d: Doc, k: string): Json {
    if k in d then d[k] else Null
  }

  // ---------------------------------------------------------------- merge and diff

  function MergePatch(target: Json, patch: Json): Json
    decreases patch
  {
    if !patch.Obj? then patch
    else
      var t := FieldsOf(target);
      Obj(map k | k in t.Keys + patch.fields.Keys && !(k in patch.fields && patch.fields[k].Null?) ::
            if k in patch.fields then MergePatch(MemberOrNull(t, k), patch.fields[k]) else t[k])
  }

  /** Every member of the second object that differs, and null for every member it lacks. */
  function DiffObj(a: Json, b: Json): Doc
    requires a.Obj? && b.Obj?
    decreases b, 1
  {
    map k | k in a.fields.Keys + b.fields.Keys && DiffAt(a, b, k).Some? :: DiffAt(a, b, k).value
  }

  /** What the patch says about member k; nothing when both sides agree on it. */
  function DiffAt(a: Json, b: Json, k: string): Option<Json>
    requires a.Obj? && b.Obj?
    requires k in a.fields || k in b.fields
    decreases b, 0
  {
    if k !in b.fields then Some(Null)
    else if k !in a.fields then Some(b.fields[k])
    else if a.fields[k].Obj? && b.fields[k].Obj? then
      var d := DiffObj(a.fields[k], b.fields[k]);
      if d == map[] then None else Some(Obj(d))
    else if a.fields[k] == b.fields[k] then None
    else Some(b.fields[k])
  }

  function Merge(target: Doc, patch: Doc): Doc {
    MergePatch(Obj(target), Obj(patch)).fields
  }

  function Diff(a: Doc, b: Doc): Doc {
    DiffObj(Obj(a), Obj(b))
  }

  // ---------------------------------------------------------------- nulls

  /** No null anywhere in object position. Arrays are opaque to merge patch, so they do not matter. */
  predicate NullFree(v: Json) {
    match v
    case Null => false
    case Obj(m) => forall k | k in m :: NullFree(m[k])
    case _ => true
  }

  predicate NullFreeDoc(d: Doc) {
    forall k | k in d :: NullFree(d[k])
  }

  function StripNulls(v: Json): Json {
    if v.Obj? then Obj(map k | k in v.fields && !v.fields[k].Null? :: StripNulls(v.fields[k])) else v
  }

  predicate SameUpToNulls(a: Doc, b: Doc) {
    StripNulls(Obj(a)) == StripNulls(Obj(b))
  }

  /** The new value b of a member comes through a diff against its old value a. */
  predicate Survives(a: Option<Json>, b: Json)
    decreases b
  {
    if a.Some? && a.value.Obj? && b.Obj? then
      forall k | k in b.fields :: Survives(Get(a.value.fields, k), b.fields[k])
    else a == Some(b) || NullFree(b)
  }

  /** Every null of b stands where a has a null at the same path. */
  predicate Diffable(a: Doc, b: Doc) {
    forall k | k in b :: Survives(Get(a, k), b[k])
  }

  lemma {:induction false} NullFreeSurvives(a: Option<Json>, b: Json)
    requires NullFree(b)
    ensures Survives(a, b)
    decreases b
  {
    if a.Some? && a.value.Obj? && b.Obj? {
      forall k | k in b.fields ensures Survives(Get(a.value.fields, k), b.fields[k]) {
        NullFreeSurvives(Get(a.value.fields, k), b.fields[k]);
      }
    }
  }

  lemma NullFreeIsDiffable(a: Doc, b: Doc)
    requires NullFreeDoc(b)
    ensures Diffable(a, b)
  {
    forall k | k in b ensures Survives(Get(a, k), b[k]) {
      NullFreeSurvives(Get(a, k), b[k]);
    }
  }

  lemma {:induction false} StripKeepsNullFree(v: Json)
    requires NullFree(v)
    ensures StripNulls(v) == v
  {
    if v.Obj? {
      forall k | k in v.fields ensures StripNulls(v.fields[k]) == v.fields[k] {
        StripKeepsNullFree(v.fields[k]);
      }
      assert StripNulls(v).fields == v.fields;
    }
  }

  lemma {:induction false} StripIsNullFree(v: Json)
    requires !v.Null?
    ensures NullFree(StripNulls(v))
  {
    if v.Obj? {
      forall k | k in v.fields && !v.fields[k].Null? ensures NullFree(StripNulls(v.fields[k])) {
        StripIsNullFree(v.fields[k]);
      }
    }
  }

  /** Merging onto something that is not an object only strips nulls. */
  lemma {:induction false} MergeOntoNothing(t: Json, v: Json)
    requires !t.Obj?
    ensures MergePatch(t, v) == StripNulls(v)
    decreases v
  {
    if v.Obj? {
      forall k | k in v.fields && !v.fields[k].Null?
        ensures MergePatch(Null, v.fields[k]) == StripNulls(v.fields[k])
      {
        MergeOntoNothing(Null, v.fields[k]);
      }
      assert MergePatch(t, v).fields == StripNulls(v).fields;
    }
  }

  lemma {:induction false} StripTwice(v: Json)
    ensures StripNulls(StripNulls(v)) == StripNulls(v)
  {
    if !v.Null? {
      StripIsNullFree(v);
      StripKeepsNullFree(StripNulls(v));
    }
  }

  // ---------------------------------------------------------------- laws

  /** A patch is idempotent: applying it again changes nothing. */
  lemma {:induction false} MergeIdempotent(t: Json, p: Json)
    ensures MergePatch(MergePatch(t, p), p) == MergePatch(t, p)
    decreases p
  {
    if p.Obj? {
      var m := MergePatch(t, p);
      forall k | k in p.fields { MergeIdempotent(MemberOrNull(FieldsOf(t), k), p.fields[k]); }
      assert MergePatch(m, p).fields == m.fields;
    }
  }

  /** The diff is empty exactly when there is nothing to send. */
  lemma {:induction false} DiffEmptyIffEqual(a: Json, b: Json)
    requires a.Obj? && b.Obj?
    ensures DiffObj(a, b) == map[] <==> a == b
    decreases b
  {
    forall k | k in a.fields && k in b.fields && a.fields[k].Obj? && b.fields[k].Obj? {
      DiffEmptyIffEqual(a.fields[k], b.fields[k]);
    }
    if a == b {
      forall k | k in a.fields.Keys + b.fields.Keys ensures DiffAt(a, b, k).None? {}
      assert DiffObj(a, b) == map[];
    } else {
      var k := DifferentLookup(a.fields, b.fields);
      assert DiffAt(a, b, k).Some?;
      assert k in DiffObj(a, b);
    }
  }

  /** What the merge of a diff leaves at member k. */
  function Merged(a: Json, b: Json): Doc
    requires a.Obj? && b.Obj?
  {
    MergePatch(a, Obj(DiffObj(a, b))).fields
  }

  lemma MergedAt(a: Json, b: Json, k: string)
    requires a.Obj? && b.Obj?
    ensures k !in b.fields ==> k !in Merged(a, b)
    ensures k in b.fields && k in a.fields && a.fields[k].Obj? && b.fields[k].Obj? ==>
              Get(Merged(a, b), k) == Some(Obj(Merged(a.fields[k], b.fields[k])))
    ensures k in b.fields && k in a.fields && !(a.fields[k].Obj? && b.fields[k].Obj?) && a.fields[k] == b.fields[k] ==>
              Get(Merged(a, b), k) == Some(b.fields[k])
    ensures (&& k in b.fields && Get(a.fields, k) != Some(b.fields[k])
             && !(k in a.fields && a.fields[k].Obj? && b.fields[k].Obj?)) ==>
              Get(Merged(a, b), k) == if b.fields[k].Null? then None else Some(StripNulls(b.fields[k]))
  {
    var d := DiffObj(a, b);
    if k in a.fields.Keys + b.fields.Keys {
      assert k in d <==> DiffAt(a, b, k).Some?;
    }
    if k in b.fields {
      if k in a.fields && a.fields[k].Obj? && b.fields[k].Obj? {
        DiffEmptyIffEqual(a.fields[k], b.fields[k]);
        if k !in d {
          MergeEmpty(a.fields[k]);
        }
      } else if Get(a.fields, k) != Some(b.fields[k]) && !b.fields[k].Null? {
        assert k in d && d[k] == b.fields[k];
        if b.fields[k].Obj? {
          MergeOntoNothing(MemberOrNull(a.fields, k), b.fields[k]);
        }
        assert MergePatch(MemberOrNull(a.fields, k), b.fields[k]) == StripNulls(b.fields[k]);
      }
    }
  }

  lemma MergeEmpty(a: Json)
    requires a.Obj?
    ensures MergePatch(a, Obj(map[])) == a
  {
    assert MergePatch(a, Obj(map[])).fields == a.fields;
  }

  lemma {:induction false} MergedMemberIff(a: Json, b: Json, k: string)
    requires a.Obj? && b.Obj? && k in b.fields
    ensures Get(Merged(a, b), k) == Some(b.fields[k]) <==> Survives(Get(a.fields, k), b.fields[k])
    decreases b, 0
  {
    MergedAt(a, b, k);
    var v := b.fields[k];
    if k in a.fields && a.fields[k].Obj? && v.Obj? {
      MergeOfDiffIff(a.fields[k], v);
    } else if Get(a.fields, k) != Some(v) && !v.Null? {
      if NullFree(v) { StripKeepsNullFree(v); } else { StripIsNullFree(v); }
    }
  }

  lemma {:induction false} MergeOfDiffIff(a: Json, b: Json)
    requires a.Obj? && b.Obj?
    ensures Obj(Merged(a, b)) == b <==> Survives(Some(a), b)
    decreases b, 1
  {
    forall k | k in b.fields
      ensures Get(Merged(a, b), k) == Some(b.fields[k]) <==> Survives(Get(a.fields, k), b.fields[k])
    {
      MergedMemberIff(a, b, k);
    }
    forall k | k !in b.fields ensures k !in Merged(a, b) { MergedAt(a, b, k); }
    if Survives(Some(a), b) {
      assert Merged(a, b) == b.fields by {
        forall k ensures Get(Merged(a, b), k) == Get(b.fields, k) {}
        SameLookups(Merged(a, b), b.fields);
      }
    } else {
      var k :| k in b.fields && !Survives(Get(a.fields, k), b.fields[k]);
      assert Get(Merged(a, b), k) != Some(b.fields[k]);
    }
  }

  /** Applying a diff gives the new object back exactly when every null of it was there before. */
  lemma MergeOfDiff(base: Doc, next: Doc)
    ensures Merge(base, Diff(base, next)) == next <==> Diffable(base, next)
    ensures NullFreeDoc(next) ==> Merge(base, Diff(base, next)) == next
  {
    MergeOfDiffIff(Obj(base), Obj(next));
    assert Survives(Some(Obj(base)), Obj(next)) <==> Diffable(base, next);
    if NullFreeDoc(next) { NullFreeIsDiffable(base, next); }
  }

  lemma {:induction false} MergedStrips(a: Json, b: Json)
    requires a.Obj? && b.Obj?
    ensures StripNulls(Obj(Merged(a, b))) == StripNulls(b)
    decreases b
  {
    var s, t := StripNulls(Obj(Merged(a, b))).fields, StripNulls(b).fields;
    forall k ensures Get(s, k) == Get(t, k) {
      MergedAt(a, b, k);
      if k in b.fields {
        if k in a.fields && a.fields[k].Obj? && b.fields[k].Obj? {
          MergedStrips(a.fields[k], b.fields[k]);
        } else if Get(a.fields, k) != Some(b.fields[k]) && !b.fields[k].Null? {
          StripTwice(b.fields[k]);
          StripIsNullFree(b.fields[k]);
        }
      }
    }
    SameLookups(s, t);
  }

  /** With no condition at all, applying a diff gives the new object back up to null members. */
  lemma MergeOfDiffUpToNulls(base: Doc, next: Doc)
    ensures SameUpToNulls(Merge(base, Diff(base, next)), next)
  {
    MergedStrips(Obj(base), Obj(next));
  }

  /** The unconditional law fails: an explicit null that is new is lost on the way. */
  lemma ExplicitNullIsLost()
    ensures Merge(map[], Diff(map[], map["status" := Null])) == map[]
  {
    var a, b: Doc := map[], map["status" := Null];
    MergedAt(Obj(a), Obj(b), "status");
    forall k ensures Get(Merged(Obj(a), Obj(b)), k) == None { MergedAt(Obj(a), Obj(b), k); }
    SameLookups(Merged(Obj(a), Obj(b)), map[]);
  }

  // ---------------------------------------------------------------- examples of RFC 7396, appendix A

  /** A member of the result: from the patch if the patch has it, merged and not null, else from the target. */
  lemma MergedMember(target: Doc, patch: Doc, k: string)
    ensures Get(Merge(target, patch), k) ==
            if k !in patch then Get(target, k)
            else if patch[k].Null? then None
            else if patch[k].Obj? then
              Some(Obj(Merge(if k in target && target[k].Obj? then target[k].fields else map[], patch[k].fields)))
            else Some(patch[k])
  {
    if k in patch && patch[k].Obj? {
      var t := FieldsOf(MemberOrNull(target, k));
      assert FieldsOf(Obj(t)) == t;
      var q := patch[k].fields;
      assert MergePatch(MemberOrNull(target, k), Obj(q)) == MergePatch(Obj(t), Obj(q));
      assert Get(Merge(target, patch), k) == Some(MergePatch(MemberOrNull(target, k), Obj(q)));
      assert MergePatch(Obj(t), Obj(q)) == Obj(Merge(t, q));
    } else if k in patch {
      assert MergePatch(MemberOrNull(target, k), patch[k]) == patch[k];
    }
  }

  /** A member is added or removed; other members stay. */
  lemma MemberExamples()
    ensures Merge(map["a" := Str("b")], map["b" := Str("c")]) == map["a" := Str("b"), "b" := Str("c")]
    ensures Merge(map["a" := Str("b"), "b" := Str("c")], map["a" := Null]) == map["b" := Str("c")]
    ensures Merge(map["e" := Null], map["a" := Num("1")]) == map["e" := Null, "a" := Num("1")]
  {
    assert "a"[0] != "b"[0] && "a"[0] != "e"[0];
  }

  /** Values and arrays are replaced as a whole, and what is no object is replaced by an object. */
  lemma ReplacementExamples()
    ensures Merge(map["a" := Str("b")], map["a" := Str("c")]) == map["a" := Str("c")]
    ensures Merge(map["a" := Arr([Str("b")])], map["a" := Str("c")]) == map["a" := Str("c")]
    ensures Merge(map["a" := Str("c")], map["a" := Arr([Null])]) == map["a" := Arr([Null])]
    ensures MergePatch(Obj(map["a" := Str("b")]), Arr([Str("c")])) == Arr([Str("c")])
    ensures MergePatch(Arr([Num("1")]), Obj(map["a" := Str("b"), "c" := Null])) == Obj(map["a" := Str("b")])
  {
    assert "a"[0] != "c"[0];
    assert MergePatch(Arr([Num("1")]), Obj(map["a" := Str("b"), "c" := Null])).fields == map["a" := Str("b")];
  }

  /** Objects are merged member by member. */
  lemma NestedExample()
    ensures Merge(map["a" := Obj(map["b" := Str("c")])], map["a" := Obj(map["b" := Str("d"), "c" := Null])])
            == map["a" := Obj(map["b" := Str("d")])]
  {
    assert "b"[0] != "c"[0];
    var inner := MergePatch(Obj(map["b" := Str("c")]), Obj(map["b" := Str("d"), "c" := Null]));
    assert inner.fields == map["b" := Str("d")];
  }

  /** Nulls in a new object are dropped. */
  lemma NewObjectExample()
    ensures Merge(map[], map["a" := Obj(map["b" := Obj(map["c" := Null])])]) == map["a" := Obj(map["b" := Obj(map[])])]
  {
    assert MergePatch(Null, Obj(map["c" := Null])).fields == map[];
    assert MergePatch(Null, Obj(map["b" := Obj(map["c" := Null])])).fields == map["b" := Obj(map[])];
  }
}
