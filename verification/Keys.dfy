/** The string keys under which objects, kinds and connections are stored. */
module Keys {
  import opened Options

  // ---------------------------------------------------------------- join and split

  predicate SlashFree(s: string) {
    '/' !in s
  }

  /** strings.Join(parts, "/") */
  function Join(parts: seq<string>): string
    requires parts != []
  {
    if |parts| == 1 then parts[0] else parts[0] + "/" + Join(parts[1..])
  }

  /** strings.Split(s, "/") */
  function Split(s: string): (parts: seq<string>)
    ensures parts != []
  {
    if s == "" then [""]
    else if s[0] == '/' then [""] + Split(s[1..])
    else
      var rest := Split(s[1..]);
      [[s[0]] + rest[0]] + rest[1..]
  }

  lemma {:induction false} SplitSlashFree(s: string)
    requires SlashFree(s)
    ensures Split(s) == [s]
  {
    if s != "" {
      assert s[0] in s;
      forall c | c in s[1..] ensures c != '/' { assert c in s; }
      SplitSlashFree(s[1..]);
      assert [s[0]] + s[1..] == s;
    }
  }

  lemma {:induction false} SplitFirst(a: string, rest: string)
    requires SlashFree(a)
    ensures Split(a + "/" + rest) == [a] + Split(rest)
  {
    var s := a + "/" + rest;
    if a == "" {
      assert s[0] == '/' && s[1..] == rest;
    } else {
      assert a[0] in a && s[0] == a[0];
      forall c | c in a[1..] ensures c != '/' { assert c in a; }
      SplitFirst(a[1..], rest);
      assert s[1..] == a[1..] + "/" + rest;
      assert [a[0]] + a[1..] == a;
    }
  }

  lemma {:induction false} JoinAppend(a: seq<string>, b: seq<string>)
    requires a != [] && b != []
    ensures Join(a + b) == Join(a) + "/" + Join(b)
  {
    assert (a + b)[1..] == a[1..] + b;
    if |a| == 1 {
      assert (a + b)[1..] == b;
    } else {
      JoinAppend(a[1..], b);
      assert a[0] + "/" + (Join(a[1..]) + "/" + Join(b)) == (a[0] + "/" + Join(a[1..])) + "/" + Join(b);
    }
  }

  /** Parts without slashes come back out of a key. */
  lemma {:induction false} SplitOfJoin(parts: seq<string>)
    requires parts != [] && forall i | 0 <= i < |parts| :: SlashFree(parts[i])
    ensures Split(Join(parts)) == parts
  {
    if |parts| == 1 {
      SplitSlashFree(parts[0]);
    } else {
      SplitFirst(parts[0], Join(parts[1..]));
      SplitOfJoin(parts[1..]);
    }
  }

  lemma {:induction false} JoinOfSplit(s: string)
    ensures Join(Split(s)) == s
    ensures forall i | 0 <= i < |Split(s)| :: SlashFree(Split(s)[i])
  {
    if s != "" {
      JoinOfSplit(s[1..]);
      var rest := Split(s[1..]);
      if s[0] == '/' {
        assert ([""] + rest)[1..] == rest;
        assert s == "" + "/" + s[1..];
      } else {
        var parts := [[s[0]] + rest[0]] + rest[1..];
        assert parts[1..] == rest[1..];
        assert Join(parts) == [s[0]] + Join(rest);
      }
    }
  }

  // ---------------------------------------------------------------- kinds and objects

  datatype Kind = Kind(group: string, version: string, resource: string)

  predicate PlainKind(k: Kind) {
    SlashFree(k.group) && SlashFree(k.version) && SlashFree(k.resource)
  }

  function KindString(k: Kind): string {
    Join([k.group, k.version, k.resource])
  }

  function KindFromString(s: string): Option<Kind> {
    var parts := Split(s);
    if |parts| != 3 then None else Some(Kind(parts[0], parts[1], parts[2]))
  }

  /** Reading and writing a kind are inverse to each other, in both directions. */
  lemma KindRoundTrip(k: Kind, s: string)
    ensures PlainKind(k) ==> KindFromString(KindString(k)) == Some(k)
    ensures KindFromString(s).Some? ==> PlainKind(KindFromString(s).value) && KindString(KindFromString(s).value) == s
  {
    if PlainKind(k) {
      SplitOfJoin([k.group, k.version, k.resource]);
    }
    JoinOfSplit(s);
    var parts := Split(s);
    if |parts| == 3 {
      assert parts == [parts[0], parts[1], parts[2]];
    }
  }

  datatype KindName = KindName(kind: Option<Kind>, name: string, namespace: string, resourceVersion: int)

  predicate PlainName(id: KindName) {
    (id.kind.Some? ==> PlainKind(id.kind.value)) && SlashFree(id.name) && SlashFree(id.namespace)
  }

  function KeyOf(id: KindName): string {
    Join([if id.kind.Some? then KindString(id.kind.value) else "", id.namespace, id.name])
  }

  function PartsOf(id: KindName): seq<string> {
    (if id.kind.Some? then [id.kind.value.group, id.kind.value.version, id.kind.value.resource] else [""]) +
    [id.namespace, id.name]
  }

  lemma KeyIsJoinOfParts(id: KindName)
    ensures KeyOf(id) == Join(PartsOf(id))
  {
    var tail := [id.namespace, id.name];
    if id.kind.Some? {
      var k := id.kind.value;
      JoinAppend([k.group, k.version, k.resource], tail);
      JoinAppend([KindString(k)], tail);
      assert [KindString(k)] + tail == [KindString(k), id.namespace, id.name];
    } else {
      assert PartsOf(id) == ["", id.namespace, id.name];
    }
  }

  /** A key determines the object: same key, same kind (or none), namespace and name. */
  lemma KeyIdentifiesObject(a: KindName, b: KindName)
    requires PlainName(a) && PlainName(b)
    ensures KeyOf(a) == KeyOf(b) <==> a.kind == b.kind && a.namespace == b.namespace && a.name == b.name
  {
    if KeyOf(a) == KeyOf(b) {
      KeyIsJoinOfParts(a);
      KeyIsJoinOfParts(b);
      SplitOfJoin(PartsOf(a));
      SplitOfJoin(PartsOf(b));
      var p, q := PartsOf(a), PartsOf(b);
      assert p == q;
      assert p[|p| - 1] == q[|q| - 1] && p[|p| - 2] == q[|q| - 2];
      assert |p| == |q|;
      if a.kind.Some? {
        assert p[0] == q[0] && p[1] == q[1] && p[2] == q[2];
      }
    }
  }

  /** Without the condition it does not: a slash can move from the namespace into the name. */
  lemma SlashesMakeKeysCollide()
    ensures KeyOf(KindName(None, "c", "a/b", 0)) == KeyOf(KindName(None, "b/c", "a", 0))
  {
    var x, y := KindName(None, "c", "a/b", 0), KindName(None, "b/c", "a", 0);
    assert ["", "a/b", "c"][1..] == ["a/b", "c"] && ["a/b", "c"][1..] == ["c"];
    assert ["", "a", "b/c"][1..] == ["a", "b/c"] && ["a", "b/c"][1..] == ["b/c"];
    assert KeyOf(x) == "" + "/" + ("a/b" + "/" + "c");
    assert KeyOf(y) == "" + "/" + ("a" + "/" + "b/c");
    assert KeyOf(x) == "/a/b/c";
    assert KeyOf(y) == "/a/b/c";
  }

  // ---------------------------------------------------------------- over the wire

  /** What a single message carries of an id: no version. */
  function SentAlone(id: KindName): KindName {
    id.(resourceVersion := 0)
  }

  /** What a batch item carries: everything but the kind, which the receiver takes from its own side. */
  function RebuiltFromBatch(id: KindName, receiverKind: Kind): KindName {
    KindName(Some(receiverKind), id.name, id.namespace, id.resourceVersion)
  }

  /** The id that the peer rebuilds has the key of the id that was sent; batch items keep the version too. */
  lemma WireKeepsKey(id: KindName, receiverKind: Kind)
    ensures KeyOf(SentAlone(id)) == KeyOf(id) && SentAlone(id).resourceVersion == 0
    ensures id.kind == Some(receiverKind) ==> RebuiltFromBatch(id, receiverKind) == id
    ensures PlainName(id) && PlainKind(receiverKind) ==>
              (KeyOf(RebuiltFromBatch(id, receiverKind)) == KeyOf(id) <==> id.kind == Some(receiverKind))
  {
    if PlainName(id) && PlainKind(receiverKind) {
      KeyIdentifiesObject(RebuiltFromBatch(id, receiverKind), id);
    }
  }

  /** The short key that reconciliation uses within one kind is as good as the full key. */
  function ShortKey(namespace: string, name: string): string {
    Join([namespace, name])
  }

  lemma ShortKeyIdentifiesWithinKind(a: KindName, b: KindName)
    requires PlainName(a) && PlainName(b) && a.kind == b.kind
    ensures ShortKey(a.namespace, a.name) == ShortKey(b.namespace, b.name) <==> KeyOf(a) == KeyOf(b)
  {
    SplitOfJoin([a.namespace, a.name]);
    SplitOfJoin([b.namespace, b.name]);
    KeyIdentifiesObject(a, b);
    if ShortKey(a.namespace, a.name) == ShortKey(b.namespace, b.name) {
      var p, q := [a.namespace, a.name], [b.namespace, b.name];
      assert p == q && p[0] == q[0] && p[1] == q[1];
    }
  }
}
