/** Masking the values of environment variables in a workload before it leaves the cluster. */
module Masking {
  import opened Options
  import opened JsonMerge

  const MASK := "XXXXXX"
  const CONTAINER_LISTS := ["containers", "initContainers", "ephemeralContainers"]

  // ---------------------------------------------------------------- the code

  /** unstructured.NestedSlice: the array at a path of object members, if there is one. */
  function NestedSlice(v: Json, path: seq<string>): Option<seq<Json>>
    decreases path
  {
    if path == [] then if v.Arr? then Some(v.items) else None
    else if v.Obj? && path[0] in v.fields then NestedSlice(v.fields[path[0]], path[1..])
    else None
  }

  /** unstructured.SetNestedSlice on a path that leads to an array. */
  function SetNestedSlice(v: Json, path: seq<string>, items: seq<Json>): Json
    requires NestedSlice(v, path).Some?
    decreases path
  {
    if path == [] then Arr(items)
    else Obj(v.fields[path[0] := SetNestedSlice(v.fields[path[0]], path[1..], items)])
  }

  function MaskEntry(v: Json): Json {
    if v.Obj? && "value" in v.fields then Obj(v.fields["value" := Str(MASK)]) else v
  }

  function MaskContainer(v: Json): Json {
    if v.Obj? && "env" in v.fields && v.fields["env"].Arr?
    then Obj(v.fields["env" := Arr(MaskEntries(v.fields["env"].items))]) else v
  }

  function MaskEntries(items: seq<Json>): seq<Json> {
    seq(|items|, i requires 0 <= i < |items| => MaskEntry(items[i]))
  }

  function MaskContainers(items: seq<Json>): seq<Json> {
    seq(|items|, i requires 0 <= i < |items| => MaskContainer(items[i]))
  }

  /** Masks the container list at a path, if there is one. */
  function MaskList(v: Json, path: seq<string>): Json {
    if NestedSlice(v, path).Some? then SetNestedSlice(v, path, MaskContainers(NestedSlice(v, path).value)) else v
  }

  function MaskLists(v: Json, spec: seq<string>, n: nat): Json
    requires n <= |CONTAINER_LISTS|
  {
    if n == 0 then v else MaskList(MaskLists(v, spec, n - 1), spec + [CONTAINER_LISTS[n - 1]])
  }

  function Masked(v: Json, spec: seq<string>): Json {
    MaskLists(v, spec, 3)
  }

  method MaskEnv(env: seq<Json>) returns (r: seq<Json>)
    ensures r == MaskEntries(env)
  {
    r := env;
    for j := 0 to |env|
      invariant |r| == |env|
      invariant forall i | 0 <= i < |r| :: r[i] == if i < j then MaskEntry(env[i]) else env[i]
    {
      var envVar := r[j];
      if envVar.Obj? && "value" in envVar.fields {
        r := r[j := Obj(envVar.fields["value" := Str(MASK)])];
      }
    }
  }

  /** Containers without an array of environment entries are skipped. */
  method MaskOne(container: Json) returns (r: Json)
    ensures r == MaskContainer(container)
  {
    if !container.Obj? {
      return container;
    }
    var env := NestedSlice(container, ["env"]);
    EnvOfContainer(container);
    if env.None? {
      return container;
    }
    var masked := MaskEnv(env.value);
    r := SetNestedSlice(container, ["env"], masked);
    SetEnvOfContainer(container, masked);
  }

  method MaskAllContainers(containers: seq<Json>) returns (r: seq<Json>)
    ensures r == MaskContainers(containers)
  {
    r := containers;
    for i := 0 to |containers|
      invariant |r| == |containers|
      invariant forall j | 0 <= j < |r| :: r[j] == if j < i then MaskContainer(containers[j]) else containers[j]
    {
      var c := MaskOne(r[i]);
      r := r[i := c];
    }
  }

  lemma EnvOfContainer(c: Json)
    requires c.Obj?
    ensures NestedSlice(c, ["env"]) ==
            if "env" in c.fields && c.fields["env"].Arr? then Some(c.fields["env"].items) else None
  {
    assert ["env"][1..] == [];
  }

  lemma SetEnvOfContainer(c: Json, items: seq<Json>)
    requires NestedSlice(c, ["env"]).Some?
    ensures c.Obj? && SetNestedSlice(c, ["env"], items) == Obj(c.fields["env" := Arr(items)])
  {
    assert ["env"][1..] == [];
  }

  /** The whole pass over the three container lists of a workload. */
  method MaskEnvironmentVariables(un: Json, podSpecPath: seq<string>) returns (r: Json)
    ensures r == Masked(un, podSpecPath)
  {
    r := un;
    for n := 0 to |CONTAINER_LISTS|
      invariant r == MaskLists(un, podSpecPath, n)
    {
      var path := podSpecPath + [CONTAINER_LISTS[n]];
      var containers := NestedSlice(r, path);
      if containers.Some? {
        var masked := MaskAllContainers(containers.value);
        r := SetNestedSlice(r, path, masked);
      }
    }
  }

  // ---------------------------------------------------------------- positions in a tree

  datatype Step = Field(name: string) | Index(i: nat)

  /** A node without its children. */
  datatype Shape = Leaf(v: Json) | Object(keys: set<string>) | Array(len: nat)

  function ShapeOf(v: Json): Shape {
    match v
    case Obj(m) => Object(m.Keys)
    case Arr(items) => Array(|items|)
    case _ => Leaf(v)
  }

  function Node(v: Json, p: seq<Step>): Option<Shape>
    decreases p
  {
    if p == [] then Some(ShapeOf(v))
    else
      match p[0]
      case Field(k) => if v.Obj? && k in v.fields then Node(v.fields[k], p[1..]) else None
      case Index(i) => if v.Arr? && i < |v.items| then Node(v.items[i], p[1..]) else None
  }

  /** A tree is determined by the nodes at its positions. */
  lemma {:induction false} SameNodes(a: Json, b: Json)
    requires forall p :: Node(a, p) == Node(b, p)
    ensures a == b
    decreases a
  {
    assert Node(a, []) == Node(b, []);
    match a
    case Obj(m) =>
      forall k | k in m ensures b.Obj? && k in b.fields && m[k] == b.fields[k] {
        forall p ensures Node(m[k], p) == Node(b.fields[k], p) {
          assert ([Field(k)] + p)[1..] == p;
          assert Node(a, [Field(k)] + p) == Node(b, [Field(k)] + p);
        }
        SameNodes(m[k], b.fields[k]);
      }
      assert m == b.fields;
    case Arr(items) =>
      forall i: nat | i < |items| ensures b.Arr? && |b.items| == |items| && items[i] == b.items[i] {
        forall p ensures Node(items[i], p) == Node(b.items[i], p) {
          assert ([Index(i)] + p)[1..] == p;
          assert Node(a, [Index(i)] + p) == Node(b, [Index(i)] + p);
        }
        SameNodes(items[i], b.items[i]);
      }
      assert items == b.items;
    case _ =>
  }

  // ---------------------------------------------------------------- exactness

  /** q leads to the value of an environment entry of a container in the list at this path. */
  predicate IsEnvValue(path: seq<string>, q: seq<Step>) {
    && |q| == |path| + 4
    && (forall i | 0 <= i < |path| :: q[i] == Field(path[i]))
    && q[|path|].Index? && q[|path| + 1] == Field("env") && q[|path| + 2].Index? && q[|path| + 3] == Field("value")
  }

  /** What replaces the node at p when a string is put at its prefix of length n. */
  function Overwritten(p: seq<Step>, n: nat): Option<Shape> {
    if |p| == n then Some(Leaf(Str(MASK))) else None
  }

  /** p lies at or below the value of an environment entry that the tree has. */
  predicate Covered(v: Json, path: seq<string>, p: seq<Step>) {
    |p| >= |path| + 4 && IsEnvValue(path, p[..|path| + 4]) && Node(v, p[..|path| + 4]).Some?
  }

  lemma EntryNode(v: Json, p: seq<Step>)
    ensures Node(MaskEntry(v), p) ==
            if |p| >= 1 && p[0] == Field("value") && Node(v, p[..1]).Some? then Overwritten(p, 1) else Node(v, p)
  {
    if p != [] {
      assert p[..1][1..] == [];
      if p[0] == Field("value") && MaskEntry(v) != v {
        if |p| > 1 { assert p[1..] != []; }
      }
    }
    if v.Obj? && "value" in v.fields {
      assert v.fields["value" := Str(MASK)].Keys == v.fields.Keys;
    }
  }

  predicate EnvTail(q: seq<Step>) {
    |q| == 3 && q[0] == Field("env") && q[1].Index? && q[2] == Field("value")
  }

  lemma ContainerNode(v: Json, p: seq<Step>)
    ensures Node(MaskContainer(v), p) ==
            if |p| >= 3 && EnvTail(p[..3]) && Node(v, p[..3]).Some? then Overwritten(p, 3) else Node(v, p)
  {
    if v.Obj? && "env" in v.fields && v.fields["env"].Arr? {
      assert v.fields["env" := Arr(MaskEntries(v.fields["env"].items))].Keys == v.fields.Keys;
      var items := v.fields["env"].items;
      if |p| >= 2 && p[0] == Field("env") && p[1].Index? && p[1].i < |items| {
        var i, rest := p[1].i, p[2..];
        assert p[1..][1..] == rest;
        assert Node(v, p) == Node(items[i], rest);
        assert Node(MaskContainer(v), p) == Node(MaskEntry(items[i]), rest);
        EntryNode(items[i], rest);
        if |p| >= 3 {
          assert p[..3][1..] == p[1..3] && p[1..3][1..] == p[2..3] && rest[..1] == p[2..3];
          assert Node(v, p[..3]) == Node(items[i], p[2..3]);
        }
      } else if |p| >= 3 && EnvTail(p[..3]) {
        assert p[..3][0] == p[0] && p[..3][1] == p[1];
        assert p[..3][1..] == p[1..3];
        assert Node(v, p[..3]).None?;
      }
    } else if |p| >= 3 && EnvTail(p[..3]) {
      assert p[..3][0] == p[0] && p[..3][1] == p[1];
      assert p[..3][1..] == p[1..3];
      assert Node(v, p[..3]).None?;
    }
  }

  /** One list: exactly the covered positions change. */
  lemma {:induction false} ListNode(v: Json, path: seq<string>, p: seq<Step>)
    ensures Node(MaskList(v, path), p) == if Covered(v, path, p) then Overwritten(p, |path| + 4) else Node(v, p)
    decreases path
  {
    if path == [] {
      ListHere(v, p);
    } else if v.Obj? && path[0] in v.fields {
      var k, inner := path[0], v.fields[path[0]];
      ListBelow(v, path);
      assert v.fields[k := MaskList(inner, path[1..])].Keys == v.fields.Keys;
      if p != [] && p[0] == Field(k) {
        ListNode(inner, path[1..], p[1..]);
        CoveredBelow(v, path, p);
      }
    }
    if |p| >= |path| + 4 {
      assert p[..|path| + 4][0] == p[0];
    }
  }

  lemma ListBelow(v: Json, path: seq<string>)
    requires path != [] && v.Obj? && path[0] in v.fields
    ensures MaskList(v, path) == Obj(v.fields[path[0] := MaskList(v.fields[path[0]], path[1..])])
  {
    if NestedSlice(v, path).None? {
      assert v.fields == v.fields[path[0] := v.fields[path[0]]];
    }
  }

  lemma CoveredBelow(v: Json, path: seq<string>, p: seq<Step>)
    requires path != [] && v.Obj? && path[0] in v.fields && p != [] && p[0] == Field(path[0])
    ensures Covered(v, path, p) <==> Covered(v.fields[path[0]], path[1..], p[1..])
  {
    var n := |path| + 4;
    if |p| >= n {
      var q, r := p[..n], p[1..][..n - 1];
      assert q[1..] == r;
      assert Node(v, q) == Node(v.fields[path[0]], r);
      if IsEnvValue(path[1..], r) {
        forall i | 0 <= i < |path| ensures q[i] == Field(path[i]) {
          if i > 0 { assert r[i - 1] == Field(path[1..][i - 1]); }
        }
      }
      if IsEnvValue(path, q) {
        forall i | 0 <= i < |path[1..]| ensures r[i] == Field(path[1..][i]) {
          assert q[i + 1] == Field(path[i + 1]);
        }
      }
    }
  }

  lemma ListHere(v: Json, p: seq<Step>)
    ensures Node(MaskList(v, []), p) == if Covered(v, [], p) then Overwritten(p, 4) else Node(v, p)
  {
    if v.Arr? && |p| >= 1 && p[0].Index? && p[0].i < |v.items| {
      var item := v.items[p[0].i];
      ContainerNode(item, p[1..]);
      if |p| >= 4 {
        assert p[..4][1..] == p[1..][..3];
        assert Node(v, p[..4]) == Node(item, p[1..][..3]);
        assert EnvTail(p[1..][..3]) <==> IsEnvValue([], p[..4]);
      }
    } else if |p| >= 4 {
      assert p[..4][0] == p[0];
    }
  }

  /** p lies at or below an environment value in one of the first n container lists. */
  predicate CoveredByAny(v: Json, spec: seq<string>, p: seq<Step>, n: nat)
    requires n <= |CONTAINER_LISTS|
  {
    exists t | 0 <= t < n :: Covered(v, spec + [CONTAINER_LISTS[t]], p)
  }

  /** The earlier lists have nothing to do with a value in the next one. */
  lemma {:induction false} NextListUntouched(v: Json, spec: seq<string>, p: seq<Step>, n: nat)
    requires n < |CONTAINER_LISTS|
    ensures Covered(MaskLists(v, spec, n), spec + [CONTAINER_LISTS[n]], p)
        <==> Covered(v, spec + [CONTAINER_LISTS[n]], p)
    decreases n, 1
  {
    if |p| >= |spec| + 5 {
      var q := p[..|spec| + 5];
      if IsEnvValue(spec + [CONTAINER_LISTS[n]], q) {
        ListsNode(v, spec, q, n);
        assert q[..|spec| + 5] == q;
        forall t | 0 <= t < n ensures !Covered(v, spec + [CONTAINER_LISTS[t]], q) {
          ListsAreDistinct(spec, q, t, n);
        }
      }
    }
  }

  lemma {:induction false} ListsNode(v: Json, spec: seq<string>, p: seq<Step>, n: nat)
    requires n <= |CONTAINER_LISTS|
    ensures Node(MaskLists(v, spec, n), p) ==
            if CoveredByAny(v, spec, p, n) then Overwritten(p, |spec| + 5) else Node(v, p)
    decreases n, 0
  {
    if n > 0 {
      ListNode(MaskLists(v, spec, n - 1), spec + [CONTAINER_LISTS[n - 1]], p);
      ListsNode(v, spec, p, n - 1);
      NextListUntouched(v, spec, p, n - 1);
    }
  }

  lemma ListsAreDistinct(spec: seq<string>, q: seq<Step>, s: nat, t: nat)
    requires s < t < |CONTAINER_LISTS| && IsEnvValue(spec + [CONTAINER_LISTS[t]], q)
    ensures !IsEnvValue(spec + [CONTAINER_LISTS[s]], q)
  {
    assert q[|spec|] == Field((spec + [CONTAINER_LISTS[t]])[|spec|]);
    assert |CONTAINER_LISTS[0]| == 10 && |CONTAINER_LISTS[1]| == 14 && |CONTAINER_LISTS[2]| == 19;
    assert (spec + [CONTAINER_LISTS[s]])[|spec|] != (spec + [CONTAINER_LISTS[t]])[|spec|];
  }

  /**
   Masking is exact: an environment value in one of the three lists becomes the mask with nothing below
   it, and every other node of the tree is what it was.
   */
  lemma MaskingIsExact(v: Json, spec: seq<string>, p: seq<Step>)
    ensures Node(Masked(v, spec), p) ==
            if CoveredByAny(v, spec, p, 3) then Overwritten(p, |spec| + 5) else Node(v, p)
  {
    ListsNode(v, spec, p, 3);
  }

  /** The value of an environment entry is there after masking exactly when it was there before. */
  lemma CoverSurvives(v: Json, spec: seq<string>, p: seq<Step>, t: nat)
    requires t < 3 && Covered(Masked(v, spec), spec + [CONTAINER_LISTS[t]], p)
    ensures CoveredByAny(v, spec, p, 3)
  {
    var q := p[..|spec| + 5];
    MaskingIsExact(v, spec, q);
    assert q[..|spec| + 5] == q;
    if CoveredByAny(v, spec, q, 3) {
      var s :| 0 <= s < 3 && Covered(v, spec + [CONTAINER_LISTS[s]], q);
      assert Covered(v, spec + [CONTAINER_LISTS[s]], p);
    }
  }

  /** A second pass changes nothing. */
  lemma MaskingIsIdempotent(v: Json, spec: seq<string>)
    ensures Masked(Masked(v, spec), spec) == Masked(v, spec)
  {
    var m := Masked(v, spec);
    forall p ensures Node(Masked(m, spec), p) == Node(m, p) {
      MaskingIsExact(m, spec, p);
      if CoveredByAny(m, spec, p, 3) {
        var t :| 0 <= t < 3 && Covered(m, spec + [CONTAINER_LISTS[t]], p);
        CoverSurvives(v, spec, p, t);
        MaskingIsExact(v, spec, p);
      }
    }
    SameNodes(Masked(m, spec), m);
  }

  // ---------------------------------------------------------------- an example

  function OneContainer(value: Json): Json {
    Arr([Obj(map["env" := Arr([Obj(map["value" := value])])])])
  }

  lemma ListIsMasked(v: Json, name: string, value: Json)
    requires v.Obj? && name in v.fields && v.fields[name] == OneContainer(value)
    ensures MaskList(v, [name]) == Obj(v.fields[name := OneContainer(Str("XXXXXX"))])
  {
    ListBelow(v, [name]);
    assert [name][1..] == [];
    var entry, masked := Obj(map["value" := value]), Obj(map["value" := Str("XXXXXX")]);
    assert map["value" := value]["value" := Str(MASK)] == map["value" := Str("XXXXXX")];
    assert MaskEntries([entry]) == [masked];
    var c := Obj(map["env" := Arr([entry])]);
    assert map["env" := Arr([entry])]["env" := Arr([masked])] == map["env" := Arr([masked])];
    assert MaskContainers([c]) == [Obj(map["env" := Arr([masked])])];
  }

  lemma AbsentListIsIgnored(v: Json, name: string)
    requires v.Obj? && name !in v.fields
    ensures MaskList(v, [name]) == v
  {
  }

  function Pod(name: string, value: Json, other: Json): Json {
    Obj(map[name := OneContainer(value), "others" := OneContainer(other)])
  }

  lemma NamedListIsMasked(name: string, value: Json, other: Json)
    requires name != "others"
    ensures MaskList(Pod(name, value, other), [name]) == Pod(name, Str("XXXXXX"), other)
  {
    var v := Pod(name, value, other);
    ListIsMasked(v, name, value);
    assert v.fields[name := OneContainer(Str("XXXXXX"))] == Pod(name, Str("XXXXXX"), other).fields;
  }

  /** Each of the three lists is masked, and a list of another name is not. */
  lemma PodIsMasked(name: string, value: Json, other: Json)
    requires name == "containers" || name == "initContainers" || name == "ephemeralContainers"
    ensures Masked(Pod(name, value, other), []) == Pod(name, Str("XXXXXX"), other)
  {
    var v, m := Pod(name, value, other), Pod(name, Str("XXXXXX"), other);
    assert |"containers"| == 10 && |"initContainers"| == 14 && |"ephemeralContainers"| == 19 && |"others"| == 6;
    NamedListIsMasked(name, value, other);
    forall n | 0 <= n < 3
      ensures [] + [CONTAINER_LISTS[n]] == [CONTAINER_LISTS[n]]
      ensures CONTAINER_LISTS[n] != name ==>
                MaskList(v, [CONTAINER_LISTS[n]]) == v && MaskList(m, [CONTAINER_LISTS[n]]) == m
    {
      if CONTAINER_LISTS[n] != name {
        AbsentListIsIgnored(v, CONTAINER_LISTS[n]);
        AbsentListIsIgnored(m, CONTAINER_LISTS[n]);
      }
    }
    assert MaskLists(v, [], 1) == if name == "containers" then m else v;
    assert MaskLists(v, [], 2) == if name == "ephemeralContainers" then v else m;
  }
}
