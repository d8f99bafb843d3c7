/**
 What a batch does to one key: its gets and checksums are answered from the state before, a deletion comes
 before patches and puts, and a put comes last. On both sides, for every batch.
 */
module BatchOrder {
  import opened Options
  import opened JsonMerge
  import opened Protocol
  import opened World
  import opened Batches
  import opened ShadowPrediction
  import opened Redelivery

  // ---------------------------------------------------------------- items

  /** Every item becomes one message with its own key and its own data; the kinds follow each other in this order. */
  lemma ItemsInOrder(items: BatchItems, i: nat)
    ensures |items.Unrolled()| == items.Length()
    ensures var (ms, n1) := (items.Unrolled(), |items.gets|);
            var n2 := n1 + |items.checksums|;
            var n3 := n2 + |items.deletions|;
            var n4 := n3 + |items.patches|;
            && (i < |items.gets| ==> ms[i] == (items.gets[i].key, GetObject(items.gets[i].base)))
            && (i < |items.checksums| ==>
                  ms[n1 + i] == (items.checksums[i].key, NewChecksum(items.checksums[i].checksum)))
            && (i < |items.deletions| ==> ms[n2 + i] == (items.deletions[i], ObjectDeleted))
            && (i < |items.patches| ==>
                  ms[n3 + i] == (items.patches[i].key, PatchObject(items.patches[i].checksum, items.patches[i].patch)))
            && (i < |items.puts| ==>
                  ms[n4 + i] == (items.puts[i].key, PutObject(items.puts[i].checksum, items.puts[i].content)))
  {
  }

  lemma UnrolledFor(items: BatchItems, k: Key)
    ensures For(items.Unrolled(), k) ==
            For(Gets(items.gets), k) + For(Checksums(items.checksums), k) +
            (For(Deletions(items.deletions), k) + (For(Patches(items.patches), k) + For(Puts(items.puts), k)))
  {
    var a, b, c := Gets(items.gets), Checksums(items.checksums), Deletions(items.deletions);
    var d, e := Patches(items.patches), Puts(items.puts);
    ForAppend(a, b, k);
    ForAppend(a + b, c, k);
    ForAppend(a + b + c, d, k);
    ForAppend(a + b + c + d, e, k);
  }

  /** What a log holds for a key is what its entries for that key hold. */
  lemma {:induction false} ForElements<T>(log: seq<(Key, T)>, k: Key, t: T)
    requires t in For(log, k)
    ensures (k, t) in log
  {
    if log[0].0 != k || log[0].1 != t { ForElements(log[1..], k, t); }
  }

  lemma {:induction false} ForNothing<T>(log: seq<(Key, T)>, k: Key)
    requires forall m | m in log :: m.0 != k
    ensures For(log, k) == []
  {
    if log != [] {
      assert log[0] in log;
      ForNothing(log[1..], k);
    }
  }

  lemma {:induction false} ForOnly<T>(log: seq<(Key, T)>, k: Key, i: nat)
    requires i < |log| && log[i].0 == k && forall j | 0 <= j < |log| && log[j].0 == k :: j == i
    ensures For(log, k) == [log[i].1]
  {
    if i == 0 {
      forall m | m in log[1..] ensures m.0 != k {
        var j :| 0 <= j < |log[1..]| && log[1..][j] == m;
        assert log[j + 1] == m;
      }
      ForNothing(log[1..], k);
    } else {
      forall j | 0 <= j < |log[1..]| && log[1..][j].0 == k ensures j == i - 1 {
        assert log[j + 1].0 == k;
      }
      ForOnly(log[1..], k, i - 1);
    }
  }

  lemma {:induction false} DeletionsFor(keys: seq<Key>, k: Key)
    ensures forall b | b in For(Deletions(keys), k) :: b == ObjectDeleted
    ensures For(Deletions(keys), k) == [] <==> k !in keys
  {
    if keys != [] {
      assert Deletions(keys)[1..] == Deletions(keys[1..]);
      DeletionsFor(keys[1..], k);
    }
  }

  predicate AllPatches(bodies: seq<Body>) {
    forall b | b in bodies :: b.PatchObject?
  }

  lemma PatchesFor(items: seq<PatchItem>, k: Key)
    ensures AllPatches(For(Patches(items), k))
  {
    forall b | b in For(Patches(items), k) ensures b.PatchObject? {
      ForElements(Patches(items), k, b);
    }
  }

  lemma AskedFor(items: BatchItems, k: Key)
    ensures var asked := For(Gets(items.gets), k) + For(Checksums(items.checksums), k);
            forall b | b in asked :: b.GetObject? || b.NewChecksum?
  {
    var asked := For(Gets(items.gets), k) + For(Checksums(items.checksums), k);
    forall b | b in asked ensures b.GetObject? || b.NewChecksum? {
      if b in For(Gets(items.gets), k) { ForElements(Gets(items.gets), k, b); }
      else { ForElements(Checksums(items.checksums), k, b); }
    }
  }

  /** n requests for a whole copy. */
  function Requests(n: nat): seq<Body> {
    seq(n, _ => GetObject(None))
  }

  // ---------------------------------------------------------------- the server

  /** What the server answers to a sequence of messages about one key. */
  function AnswersOf(env: Env, stored: Option<Doc>, bodies: seq<Body>): seq<Body>
    decreases bodies
  {
    if bodies == [] then []
    else
      var o := ServerStep(env, stored, bodies[0]);
      ToSeq(o.reply) + AnswersOf(env, o.stored, bodies[1..])
  }

  lemma {:induction false} AnswersConcat(env: Env, stored: Option<Doc>, a: seq<Body>, b: seq<Body>)
    ensures AnswersOf(env, stored, a + b) == AnswersOf(env, stored, a) + AnswersOf(env, Predicted(env, stored, a), b)
    decreases a
  {
    if a == [] {
      assert a + b == b;
    } else {
      assert (a + b)[1..] == a[1..] + b;
      AnswersConcat(env, ServerStep(env, stored, a[0]).stored, a[1..], b);
    }
  }

  /** What is answered about a key are the answers to the messages about this key, in order. */
  lemma {:induction false} RepliesAt(env: Env, s: Served, ms: seq<(Key, Body)>, k: Key)
    ensures For(ServeAll(env, s, ms).replies, k) ==
            For(s.replies, k) + AnswersOf(env, Get(s.resources, k), For(ms, k))
  {
    if ms != [] {
      var before, m := ms[..|ms| - 1], ms[|ms| - 1];
      var s1 := ServeAll(env, s, before);
      var r := ServerStep(env, Get(s1.resources, m.0), m.1).reply;
      RepliesAt(env, s, before, k);
      ServeAllAt(env, s, before, k);
      assert ms == before + [m];
      ForAppend(before, [m], k);
      ForAppend(s1.replies, Tag(m.0, r), k);
      assert For([m], k) == if m.0 == k then [m.1] else [];
      assert For(Tag(m.0, r), k) == if m.0 == k then ToSeq(r) else [];
      AnswersConcat(env, Get(s.resources, k), For(before, k), For([m], k));
      if m.0 == k { OneAnswer(env, Get(s1.resources, k), m.1); }
    }
  }

  lemma OneAnswer(env: Env, stored: Option<Doc>, b: Body)
    ensures AnswersOf(env, stored, [b]) == ToSeq(ServerStep(env, stored, b).reply)
    ensures Predicted(env, stored, [b]) == ServerStep(env, stored, b).stored
  {
    assert [b][1..] == [];
    assert AnswersOf(env, ServerStep(env, stored, b).stored, []) == [];
    assert Predicted(env, ServerStep(env, stored, b).stored, []) == ServerStep(env, stored, b).stored;
  }

  lemma {:induction false} QuestionsStoreNothing(env: Env, stored: Option<Doc>, bodies: seq<Body>)
    requires forall b | b in bodies :: b.GetObject? || b.NewChecksum?
    ensures Predicted(env, stored, bodies) == stored
    decreases bodies
  {
    if bodies != [] {
      assert bodies[0] in bodies;
      QuestionsStoreNothing(env, stored, bodies[1..]);
    }
  }

  lemma {:induction false} DeletionsDelete(env: Env, stored: Option<Doc>, bodies: seq<Body>)
    requires forall b | b in bodies :: b == ObjectDeleted
    ensures Predicted(env, stored, bodies) == if bodies == [] then stored else None
    ensures AnswersOf(env, stored, bodies) == []
    decreases bodies
  {
    if bodies != [] {
      assert bodies[0] in bodies;
      assert forall b | b in bodies[1..] :: b in bodies;
      DeletionsDelete(env, None, bodies[1..]);
    }
  }

  lemma {:induction false} PatchesOfNothing(env: Env, bodies: seq<Body>)
    requires AllPatches(bodies)
    ensures Predicted(env, None, bodies) == None && AnswersOf(env, None, bodies) == Requests(|bodies|)
    decreases bodies
  {
    if bodies != [] {
      assert bodies[0] in bodies;
      PatchesOfNothing(env, bodies[1..]);
      assert Requests(|bodies|) == [GetObject(None)] + Requests(|bodies| - 1);
    }
  }

  /**
   For one key: gets and checksums are answered from what was stored before the batch; then it is deleted if the
   batch says so, then patched, and then put.
   */
  lemma BatchServed(env: Env, s: Served, items: BatchItems, k: Key)
    ensures var asked := For(Gets(items.gets), k) + For(Checksums(items.checksums), k);
            var written := For(Patches(items.patches), k) + For(Puts(items.puts), k);
            var before := Get(s.resources, k);
            var left := if k in items.deletions then None else before;
            var s' := ServeAll(env, s, items.Unrolled());
            && Get(s'.resources, k) == Predicted(env, left, written)
            && For(s'.replies, k) == For(s.replies, k) + AnswersOf(env, before, asked) + AnswersOf(env, left, written)
  {
    var ms := items.Unrolled();
    var asked := For(Gets(items.gets), k) + For(Checksums(items.checksums), k);
    var deleted := For(Deletions(items.deletions), k);
    var written := For(Patches(items.patches), k) + For(Puts(items.puts), k);
    UnrolledFor(items, k);
    ServeAllAt(env, s, ms, k);
    RepliesAt(env, s, ms, k);
    AskedFor(items, k);
    DeletionsFor(items.deletions, k);
    ServedInTurn(env, Get(s.resources, k), asked, deleted, written);
  }

  lemma ServedInTurn(env: Env, stored: Option<Doc>, asked: seq<Body>, deleted: seq<Body>, written: seq<Body>)
    requires forall b | b in asked :: b.GetObject? || b.NewChecksum?
    requires forall b | b in deleted :: b == ObjectDeleted
    ensures var left := if deleted == [] then stored else None;
            && Predicted(env, stored, asked + (deleted + written)) == Predicted(env, left, written)
            && AnswersOf(env, stored, asked + (deleted + written)) ==
               AnswersOf(env, stored, asked) + AnswersOf(env, left, written)
  {
    var rest := deleted + written;
    PredictedConcat(env, stored, asked, rest);
    AnswersConcat(env, stored, asked, rest);
    QuestionsStoreNothing(env, stored, asked);
    DeletedThenWritten(env, stored, deleted, written);
  }

  lemma DeletedThenWritten(env: Env, stored: Option<Doc>, deleted: seq<Body>, written: seq<Body>)
    requires forall b | b in deleted :: b == ObjectDeleted
    ensures var left := if deleted == [] then stored else None;
            && Predicted(env, stored, deleted + written) == Predicted(env, left, written)
            && AnswersOf(env, stored, deleted + written) == AnswersOf(env, left, written)
  {
    DeletionsDelete(env, stored, deleted);
    PredictedConcat(env, stored, deleted, written);
    AnswersConcat(env, stored, deleted, written);
  }

  /** Deleted and put in one batch: the put stays, whatever was there and whatever patches there were. */
  lemma DeletedAndPut(env: Env, s: Served, items: BatchItems, i: nat)
    requires i < |items.puts| && items.puts[i].key in items.deletions
    requires forall j | 0 <= j < |items.puts| && items.puts[j].key == items.puts[i].key :: j == i
    ensures Get(ServeAll(env, s, items.Unrolled()).resources, items.puts[i].key) == Some(items.puts[i].content)
  {
    var k, patches := items.puts[i].key, For(Patches(items.patches), items.puts[i].key);
    BatchServed(env, s, items, k);
    ForOnly(Puts(items.puts), k, i);
    PatchesFor(items.patches, k);
    PatchesOfNothing(env, patches);
    PredictedConcat(env, None, patches, For(Puts(items.puts), k));
    OneAnswer(env, None, Puts(items.puts)[i].1);
  }

  /** Deleted and patched, but not put: nothing stays, and each patch asks for a whole copy. */
  lemma DeletedAndPatched(env: Env, s: Served, items: BatchItems, k: Key)
    requires k in items.deletions && forall m | m in items.puts :: m.key != k
    ensures var s' := ServeAll(env, s, items.Unrolled());
            var asked := For(Gets(items.gets), k) + For(Checksums(items.checksums), k);
            && Get(s'.resources, k) == None
            && For(s'.replies, k) == For(s.replies, k) + AnswersOf(env, Get(s.resources, k), asked)
                                     + Requests(|For(Patches(items.patches), k)|)
  {
    var patches := For(Patches(items.patches), k);
    BatchServed(env, s, items, k);
    forall m | m in Puts(items.puts) ensures m.0 != k {
      var i :| 0 <= i < |items.puts| && Puts(items.puts)[i] == m;
      assert items.puts[i] in items.puts;
    }
    ForNothing(Puts(items.puts), k);
    assert patches + [] == patches;
    PatchesFor(items.patches, k);
    PatchesOfNothing(env, patches);
  }

  // ---------------------------------------------------------------- the client

  /** What the client knows about one key, and what it has sent about it. */
  datatype Ended = Ended(held: Option<Doc>, shadow: Option<Doc>, answers: seq<Body>)

  function ClientRun(env: Env, e: Ended, bodies: seq<Body>): Ended
    decreases bodies
  {
    if bodies == [] then e
    else
      var o := ClientStep(env, e.held, e.shadow, bodies[0]);
      ClientRun(env, Ended(o.held, o.shadow, e.answers + ToSeq(o.reply)), bodies[1..])
  }

  lemma {:induction false} ClientRunConcat(env: Env, e: Ended, a: seq<Body>, b: seq<Body>)
    ensures ClientRun(env, e, a + b) == ClientRun(env, ClientRun(env, e, a), b)
    decreases a
  {
    if a == [] {
      assert a + b == b;
    } else {
      var o := ClientStep(env, e.held, e.shadow, a[0]);
      assert (a + b)[1..] == a[1..] + b;
      ClientRunConcat(env, Ended(o.held, o.shadow, e.answers + ToSeq(o.reply)), a[1..], b);
    }
  }

  function EndedAt(s: Handled, k: Key): Ended {
    Ended(Get(s.cluster, k), Get(s.shadow, k), For(s.replies, k))
  }

  lemma OneHandled(env: Env, e: Ended, b: Body)
    ensures var o := ClientStep(env, e.held, e.shadow, b);
            ClientRun(env, e, [b]) == Ended(o.held, o.shadow, e.answers + ToSeq(o.reply))
  {
    var o := ClientStep(env, e.held, e.shadow, b);
    var e' := Ended(o.held, o.shadow, e.answers + ToSeq(o.reply));
    assert [b][1..] == [];
    assert ClientRun(env, e', []) == e';
  }

  /** What a sequence of messages does at the client about a key is what the messages about this key do. */
  lemma {:induction false} HandleAllAt(env: Env, s: Handled, ms: seq<(Key, Body)>, k: Key)
    ensures EndedAt(HandleAll(env, s, ms), k) == ClientRun(env, EndedAt(s, k), For(ms, k))
  {
    if ms != [] {
      var before, m := ms[..|ms| - 1], ms[|ms| - 1];
      var s1 := HandleAll(env, s, before);
      var o := ClientStep(env, Get(s1.cluster, m.0), Get(s1.shadow, m.0), m.1);
      HandleAllAt(env, s, before, k);
      assert ms == before + [m];
      ForAppend(before, [m], k);
      ForAppend(s1.replies, Tag(m.0, o.reply), k);
      GetAfterPut(s1.cluster, m.0, o.held, k);
      GetAfterPut(s1.shadow, m.0, o.shadow, k);
      assert For([m], k) == if m.0 == k then [m.1] else [];
      assert For(Tag(m.0, o.reply), k) == if m.0 == k then ToSeq(o.reply) else [];
      ClientRunConcat(env, EndedAt(s, k), For(before, k), For([m], k));
      if m.0 == k { OneHandled(env, EndedAt(s1, k), m.1); }
    }
  }

  lemma {:induction false} QuestionsChangeNothing(env: Env, e: Ended, bodies: seq<Body>)
    requires forall b | b in bodies :: b.GetObject? || b.NewChecksum?
    ensures ClientRun(env, e, bodies).held == e.held
    decreases bodies
  {
    if bodies != [] {
      assert bodies[0] in bodies;
      var o := ClientStep(env, e.held, e.shadow, bodies[0]);
      QuestionsChangeNothing(env, Ended(o.held, o.shadow, e.answers + ToSeq(o.reply)), bodies[1..]);
    }
  }

  lemma {:induction false} DeletionsRemove(env: Env, e: Ended, bodies: seq<Body>)
    requires forall b | b in bodies :: b == ObjectDeleted
    ensures var shadow := if env.strategy.Patch? then None else e.shadow;
            ClientRun(env, e, bodies) == if bodies == [] then e else Ended(None, shadow, e.answers)
    decreases bodies
  {
    if bodies != [] {
      assert bodies[0] in bodies;
      var o := ClientStep(env, e.held, e.shadow, bodies[0]);
      assert e.answers + [] == e.answers && forall b | b in bodies[1..] :: b in bodies;
      DeletionsRemove(env, Ended(o.held, o.shadow, e.answers), bodies[1..]);
    }
  }

  lemma {:induction false} PatchesOfAbsent(env: Env, e: Ended, bodies: seq<Body>)
    requires e.held.None? && AllPatches(bodies)
    ensures ClientRun(env, e, bodies) == e.(answers := e.answers + Requests(|bodies|))
    decreases bodies
  {
    if bodies != [] {
      assert bodies[0] in bodies;
      var e1 := e.(answers := e.answers + [GetObject(None)]);
      PatchesOfAbsent(env, e1, bodies[1..]);
      assert Requests(|bodies|) == [GetObject(None)] + Requests(|bodies| - 1);
      assert e1.answers + Requests(|bodies| - 1) == e.answers + Requests(|bodies|);
    } else {
      assert e.answers + Requests(0) == e.answers;
    }
  }

  /**
   For one key at the client: gets and checksums are answered from the object that the cluster held before the
   batch; then it is deleted, with its shadow, if the batch says so, then patched, and then put.
   */
  lemma BatchHandled(env: Env, s: Handled, items: BatchItems, k: Key)
    ensures var asked := For(Gets(items.gets), k) + For(Checksums(items.checksums), k);
            var written := For(Patches(items.patches), k) + For(Puts(items.puts), k);
            var e := ClientRun(env, EndedAt(s, k), asked);
            var left := if k !in items.deletions then e
                        else Ended(None, if env.strategy.Patch? then None else e.shadow, e.answers);
            && e.held == Get(s.cluster, k)
            && EndedAt(HandleAll(env, s, items.Unrolled()), k) == ClientRun(env, left, written)
  {
    var ms := items.Unrolled();
    var asked := For(Gets(items.gets), k) + For(Checksums(items.checksums), k);
    var deleted := For(Deletions(items.deletions), k);
    var written := For(Patches(items.patches), k) + For(Puts(items.puts), k);
    UnrolledFor(items, k);
    HandleAllAt(env, s, ms, k);
    ClientRunConcat(env, EndedAt(s, k), asked, deleted + written);
    AskedFor(items, k);
    QuestionsChangeNothing(env, EndedAt(s, k), asked);
    var e := ClientRun(env, EndedAt(s, k), asked);
    DeletionsFor(items.deletions, k);
    DeletionsRemove(env, e, deleted);
    ClientRunConcat(env, e, deleted, written);
  }

  /** Deleted and put in one batch: the object is created anew from the put alone. */
  lemma DeletedAndPutAtClient(env: Env, s: Handled, items: BatchItems, i: nat)
    requires i < |items.puts| && items.puts[i].key in items.deletions
    requires forall j | 0 <= j < |items.puts| && items.puts[j].key == items.puts[i].key :: j == i
    ensures Get(HandleAll(env, s, items.Unrolled()).cluster, items.puts[i].key) ==
            env.admit(None, items.puts[i].content)
  {
    var k, patches := items.puts[i].key, For(Patches(items.patches), items.puts[i].key);
    BatchHandled(env, s, items, k);
    var e := ClientRun(env, EndedAt(s, k), For(Gets(items.gets), k) + For(Checksums(items.checksums), k));
    var left := Ended(None, if env.strategy.Patch? then None else e.shadow, e.answers);
    ForOnly(Puts(items.puts), k, i);
    PatchesFor(items.patches, k);
    PatchesOfAbsent(env, left, patches);
    ClientRunConcat(env, left, patches, For(Puts(items.puts), k));
    OneHandled(env, ClientRun(env, left, patches), Puts(items.puts)[i].1);
    assert EndedAt(HandleAll(env, s, items.Unrolled()), k).held == Get(HandleAll(env, s, items.Unrolled()).cluster, k);
  }

  /** Deleted and patched, but not put: the object stays away, and each patch asks for a whole copy. */
  lemma DeletedAndPatchedAtClient(env: Env, s: Handled, items: BatchItems, k: Key)
    requires k in items.deletions && forall m | m in items.puts :: m.key != k
    ensures var s' := HandleAll(env, s, items.Unrolled());
            var asked := For(Gets(items.gets), k) + For(Checksums(items.checksums), k);
            && Get(s'.cluster, k) == None
            && For(s'.replies, k) == ClientRun(env, EndedAt(s, k), asked).answers
                                     + Requests(|For(Patches(items.patches), k)|)
  {
    var patches := For(Patches(items.patches), k);
    BatchHandled(env, s, items, k);
    var e := ClientRun(env, EndedAt(s, k), For(Gets(items.gets), k) + For(Checksums(items.checksums), k));
    forall m | m in Puts(items.puts) ensures m.0 != k {
      var i :| 0 <= i < |items.puts| && Puts(items.puts)[i] == m;
      assert items.puts[i] in items.puts;
    }
    ForNothing(Puts(items.puts), k);
    assert patches + [] == patches;
    PatchesFor(items.patches, k);
    PatchesOfAbsent(env, Ended(None, if env.strategy.Patch? then None else e.shadow, e.answers), patches);
  }

  /** One item of each kind, as it is handed over. */
  lemma OneOfEach(g: GetItem, c: ChecksumItem, k: Key, p: PatchItem, u: PutItem)
    ensures BatchItems([g], [c], [k], [p], [u]).Unrolled() ==
            [(g.key, GetObject(g.base)), (c.key, NewChecksum(c.checksum)), (k, ObjectDeleted),
             (p.key, PatchObject(p.checksum, p.patch)), (u.key, PutObject(u.checksum, u.content))]
  {
  }
}
