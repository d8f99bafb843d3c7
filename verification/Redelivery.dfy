/**
 Messages and batches that reach the server twice. A single message does no harm, but a batch can: its
 patches are tried before its puts, so a patch that fits nothing the first time may fit the second time.
 */
module Redelivery {
  import opened Options
  import opened JsonMerge
  import opened Versions
  import opened Protocol
  import opened Exchange
  import opened World
  import opened Batches
  import opened ShadowPrediction
  import opened ServerHistory

  // ---------------------------------------------------------------- one key of a batch

  lemma {:induction false} PredictedConcat(env: Env, stored: Option<Doc>, a: seq<Body>, b: seq<Body>)
    ensures Predicted(env, stored, a + b) == Predicted(env, Predicted(env, stored, a), b)
    decreases a
  {
    if a == [] {
      assert a + b == b;
    } else {
      assert (a + b)[1..] == a[1..] + b;
      PredictedConcat(env, ServerStep(env, stored, a[0]).stored, a[1..], b);
    }
  }

  /** What a sequence of messages does to a key is what the messages about this key do. */
  lemma {:induction false} ServeAllAt(env: Env, s: Served, ms: seq<(Key, Body)>, k: Key)
    ensures Get(ServeAll(env, s, ms).resources, k) == Predicted(env, Get(s.resources, k), For(ms, k))
  {
    if ms != [] {
      var before, m := ms[..|ms| - 1], ms[|ms| - 1];
      ServeAllAt(env, s, before, k);
      assert ms == before + [m];
      ForAppend(before, [m], k);
      assert For([m], k) == if m.0 == k then [m.1] else [];
      PredictedConcat(env, Get(s.resources, k), For(before, k), For([m], k));
      if m.0 == k {
        assert [m.1][1..] == [];
      }
    }
  }

  // ---------------------------------------------------------------- deletions

  /** With a deletion among them, the messages leave the same whatever was there before. */
  lemma {:induction false} DeletionErasesHistory(env: Env, s: Option<Doc>, t: Option<Doc>, bodies: seq<Body>)
    requires ObjectDeleted in bodies
    ensures Predicted(env, s, bodies) == Predicted(env, t, bodies)
    decreases bodies
  {
    if !bodies[0].ObjectDeleted? {
      DeletionErasesHistory(env, ServerStep(env, s, bodies[0]).stored, ServerStep(env, t, bodies[0]).stored,
          bodies[1..]);
    }
  }

  // ---------------------------------------------------------------- copies only

  predicate OnlyCopies(bodies: seq<Body>) {
    forall b | b in bodies :: !b.PatchObject? && !b.ObjectDeleted?
  }

  /** An object with unreadable metadata is stored whatever was there before. */
  predicate Overwrites(env: Env, b: Body) {
    b.PutObject? && !env.readable(b.content)
  }

  lemma {:induction false} UnreadableErasesHistory(env: Env, s: Option<Doc>, t: Option<Doc>, bodies: seq<Body>, b: Body)
    requires b in bodies && Overwrites(env, b)
    ensures Predicted(env, s, bodies) == Predicted(env, t, bodies)
    decreases bodies
  {
    if bodies[0] != b {
      UnreadableErasesHistory(env, ServerStep(env, s, bodies[0]).stored, ServerStep(env, t, bodies[0]).stored,
          bodies[1..], b);
    }
  }

  /** The message would not change what is stored. */
  predicate Absorbed(env: Env, stored: Option<Doc>, b: Body) {
    b.PutObject? ==>
      && env.readable(b.content) && stored.Some? && env.readable(stored.value)
      && !StringValueBigger(RawVersion(b.content), RawVersion(stored.value))
  }

  /** Copies that are absorbed once stay absorbed, and after a pass all of them are. */
  lemma {:induction false} CopiesAreAbsorbed(env: Env, stored: Option<Doc>, bodies: seq<Body>, b: Body)
    requires OnlyCopies(bodies) && forall c | c in bodies :: !Overwrites(env, c)
    requires b in bodies || Absorbed(env, stored, b)
    ensures Absorbed(env, Predicted(env, stored, bodies), b)
    decreases bodies
  {
    if bodies != [] {
      assert bodies[0] in bodies;
      CopiesAreAbsorbed(env, ServerStep(env, stored, bodies[0]).stored, bodies[1..], b);
    }
  }

  lemma {:induction false} AbsorbedPass(env: Env, stored: Option<Doc>, bodies: seq<Body>)
    requires OnlyCopies(bodies) && forall b | b in bodies :: Absorbed(env, stored, b)
    ensures Predicted(env, stored, bodies) == stored
    decreases bodies
  {
    if bodies != [] {
      assert bodies[0] in bodies;
      AbsorbedPass(env, stored, bodies[1..]);
    }
  }

  lemma CopiesTwice(env: Env, stored: Option<Doc>, bodies: seq<Body>)
    requires OnlyCopies(bodies)
    ensures Predicted(env, Predicted(env, stored, bodies), bodies) == Predicted(env, stored, bodies)
  {
    var once := Predicted(env, stored, bodies);
    if b :| b in bodies && Overwrites(env, b) {
      UnreadableErasesHistory(env, stored, once, bodies, b);
    } else {
      forall b | b in bodies ensures Absorbed(env, once, b) {
        CopiesAreAbsorbed(env, stored, bodies, b);
      }
      AbsorbedPass(env, once, bodies);
    }
  }

  // ---------------------------------------------------------------- one patch

  predicate Stores(b: Body) {
    b.PatchObject? || b.PutObject? || b.ObjectDeleted?
  }

  function Storing(bodies: seq<Body>): seq<Body> {
    if bodies == [] then []
    else if Stores(bodies[0]) then [bodies[0]] + Storing(bodies[1..])
    else Storing(bodies[1..])
  }

  /** Questions leave no trace. */
  lemma {:induction false} OnlyStoringMatters(env: Env, stored: Option<Doc>, bodies: seq<Body>)
    ensures Predicted(env, stored, bodies) == Predicted(env, stored, Storing(bodies))
    decreases bodies
  {
    if bodies != [] {
      OnlyStoringMatters(env, ServerStep(env, stored, bodies[0]).stored, bodies[1..]);
    }
  }

  /** Handling a message a second time changes nothing and gives the same answer. */
  lemma DuplicateDeliveryIsHarmless(env: Env, stored: Option<Doc>, b: Body)
    ensures var once := ServerStep(env, stored, b);
            ServerStep(env, once.stored, b) == once
  {
    if b.PatchObject? && stored.Some? {
      MergeIdempotent(Obj(stored.value), Obj(b.patch));
    }
  }

  lemma OneTwice(env: Env, stored: Option<Doc>, bodies: seq<Body>)
    requires |Storing(bodies)| <= 1
    ensures Predicted(env, Predicted(env, stored, bodies), bodies) == Predicted(env, stored, bodies)
  {
    var one := Storing(bodies);
    OnlyStoringMatters(env, stored, bodies);
    OnlyStoringMatters(env, Predicted(env, stored, bodies), bodies);
    if one != [] {
      assert one[1..] == [];
      DuplicateDeliveryIsHarmless(env, stored, one[0]);
    }
  }

  // ---------------------------------------------------------------- batches

  /** A patch does not share its key with another patch or a copy, unless the key is deleted as well. */
  predicate Repeatable(bodies: seq<Body>) {
    ObjectDeleted in bodies || OnlyCopies(bodies) || |Storing(bodies)| <= 1
  }

  /** Such a batch, delivered twice in a row, leaves what it leaves when delivered once. */
  lemma DuplicateBatchIsHarmless(env: Env, s: Served, items: BatchItems)
    requires forall k: Key :: Repeatable(For(items.Unrolled(), k))
    ensures var once := ServeAll(env, s, items.Unrolled());
            ServeAll(env, once, items.Unrolled()).resources == once.resources
  {
    var ms := items.Unrolled();
    var once := ServeAll(env, s, ms);
    forall k: Key ensures Get(ServeAll(env, once, ms).resources, k) == Get(once.resources, k) {
      var bodies, stored := For(ms, k), Get(s.resources, k);
      ServeAllAt(env, s, ms, k);
      ServeAllAt(env, once, ms, k);
      assert Repeatable(bodies);
      if ObjectDeleted in bodies {
        DeletionErasesHistory(env, stored, Predicted(env, stored, bodies), bodies);
      } else if OnlyCopies(bodies) {
        CopiesTwice(env, stored, bodies);
      } else {
        OneTwice(env, stored, bodies);
      }
    }
    SameLookups(ServeAll(env, once, ms).resources, once.resources);
  }

  // ---------------------------------------------------------------- exactly when

  predicate NoEffect(env: Env, stored: Option<Doc>, b: Body) {
    ServerStep(env, stored, b).stored == stored
  }

  /** The patch stores nothing: there is no object, its result has another checksum, or it is not newer. */
  predicate Spent(env: Env, stored: Option<Doc>, checksum: string, patch: Doc) {
    || stored.None?
    || env.hash(Merge(stored.value, patch)) != checksum
    || !StringValueBigger(RawVersion(Merge(stored.value, patch)), RawVersion(stored.value))
  }

  lemma SpentIffNoEffect(env: Env, stored: Option<Doc>, b: Body)
    requires b.PatchObject? && (stored.Some? ==> env.readable(stored.value))
    requires var s := ServerStep(env, stored, b).stored; s.Some? ==> env.readable(s.value)
    ensures NoEffect(env, stored, b) <==> Spent(env, stored, b.patchChecksum, b.patch)
  {
  }

  lemma {:induction false} ReadableSuffix(env: Env, stored: Option<Doc>, a: seq<Body>, b: seq<Body>)
    requires ReadableThroughout(env, stored, a + b)
    ensures ReadableThroughout(env, stored, a) && ReadableThroughout(env, Predicted(env, stored, a), b)
    decreases a
  {
    if a == [] {
      assert a + b == b;
    } else {
      assert (a + b)[1..] == a[1..] + b;
      ReadableSuffix(env, ServerStep(env, stored, a[0]).stored, a[1..], b);
    }
  }

  /** Versions only grow, so a pass leaves things as they are only if each message does so by itself. */
  lemma {:induction false} PassIff(env: Env, stored: Option<Doc>, bodies: seq<Body>)
    requires ReadableThroughout(env, stored, bodies) && ObjectDeleted !in bodies
    ensures Predicted(env, stored, bodies) == stored <==> forall b | b in bodies :: NoEffect(env, stored, b)
    decreases bodies
  {
    if bodies != [] {
      assert bodies[0] in bodies;
      var next, rest := ServerStep(env, stored, bodies[0]).stored, bodies[1..];
      if next == stored {
        PassIff(env, stored, rest);
        assert forall b | b in bodies :: b == bodies[0] || b in rest;
      } else {
        VersionsNeverGoBack(env, next, rest);
        assert !NoEffect(env, stored, bodies[0]);
      }
    }
  }

  /** A copy has no effect on what it has already been offered to. */
  lemma {:induction false} OfferedCopy(env: Env, stored: Option<Doc>, bodies: seq<Body>, b: Body)
    requires ReadableThroughout(env, stored, bodies) && ObjectDeleted !in bodies && b.PutObject?
    requires b in bodies || Absorbed(env, stored, b)
    ensures Absorbed(env, Predicted(env, stored, bodies), b)
    decreases bodies
  {
    if bodies != [] {
      assert bodies[0] in bodies;
      OfferedCopy(env, ServerStep(env, stored, bodies[0]).stored, bodies[1..], b);
    }
  }

  /** Tried alone, the first message with an effect does what it does in the pass, so its result is readable. */
  lemma {:induction false} FirstEffectIsReadable(env: Env, stored: Option<Doc>, bodies: seq<Body>)
    requires ReadableThroughout(env, stored, bodies)
    requires forall b | b in bodies && !b.PatchObject? :: NoEffect(env, stored, b)
    ensures (forall b | b in bodies :: NoEffect(env, stored, b)) <==>
            forall b | b in bodies && b.PatchObject? :: Spent(env, stored, b.patchChecksum, b.patch)
    decreases bodies
  {
    if bodies != [] {
      assert bodies[0] in bodies && forall b | b in bodies :: b == bodies[0] || b in bodies[1..];
      if bodies[0].PatchObject? { SpentIffNoEffect(env, stored, bodies[0]); }
      if NoEffect(env, stored, bodies[0]) { FirstEffectIsReadable(env, stored, bodies[1..]); }
    }
  }

  lemma TwiceIff(env: Env, stored: Option<Doc>, bodies: seq<Body>)
    requires ReadableThroughout(env, stored, bodies + bodies) && ObjectDeleted !in bodies
    ensures var once := Predicted(env, stored, bodies);
            Predicted(env, once, bodies) == once <==>
            forall b | b in bodies && b.PatchObject? :: Spent(env, once, b.patchChecksum, b.patch)
  {
    var once := Predicted(env, stored, bodies);
    ReadableSuffix(env, stored, bodies, bodies);
    PassIff(env, once, bodies);
    forall b | b in bodies && !b.PatchObject? ensures NoEffect(env, once, b) {
      if b.PutObject? { OfferedCopy(env, stored, bodies, b); }
    }
    FirstEffectIsReadable(env, once, bodies);
  }

  /** For keys that are not deleted: no patch of the batch fits and is newer, tried on what the batch left. */
  predicate PatchesSpent(env: Env, resources: map<Key, Doc>, ms: seq<(Key, Body)>) {
    forall m | m in ms && m.1.PatchObject? && (m.0, ObjectDeleted) !in ms ::
      Spent(env, Get(resources, m.0), m.1.patchChecksum, m.1.patch)
  }

  /** What is stored in both passes has metadata that can be read; keys that are deleted do not matter. */
  ghost predicate ReadableTwice(env: Env, resources: map<Key, Doc>, ms: seq<(Key, Body)>) {
    forall k: Key | (k, ObjectDeleted) !in ms :: ReadableThroughout(env, Get(resources, k), For(ms, k) + For(ms, k))
  }

  lemma {:induction false} InFor(ms: seq<(Key, Body)>, k: Key, b: Body)
    ensures b in For(ms, k) <==> (k, b) in ms
  {
    if ms != [] {
      InFor(ms[1..], k, b);
    }
  }

  lemma KeyTwiceIff(env: Env, s: Served, ms: seq<(Key, Body)>, k: Key)
    requires ReadableTwice(env, s.resources, ms)
    ensures var once := ServeAll(env, s, ms);
            Get(ServeAll(env, once, ms).resources, k) == Get(once.resources, k) <==>
            || (k, ObjectDeleted) in ms
            || forall b | (k, b) in ms && b.PatchObject? :: Spent(env, Get(once.resources, k), b.patchChecksum, b.patch)
  {
    var bodies, stored := For(ms, k), Get(s.resources, k);
    ServeAllAt(env, s, ms, k);
    ServeAllAt(env, ServeAll(env, s, ms), ms, k);
    forall b ensures b in bodies <==> (k, b) in ms { InFor(ms, k, b); }
    if ObjectDeleted in bodies {
      DeletionErasesHistory(env, stored, Predicted(env, stored, bodies), bodies);
    } else {
      TwiceIff(env, stored, bodies);
    }
  }

  /** A batch delivered twice in a row leaves what it leaves once if and only if its patches are spent. */
  lemma DuplicateBatchHarmlessIff(env: Env, s: Served, items: BatchItems)
    requires ReadableTwice(env, s.resources, items.Unrolled())
    ensures var once := ServeAll(env, s, items.Unrolled());
            ServeAll(env, once, items.Unrolled()).resources == once.resources <==>
            PatchesSpent(env, once.resources, items.Unrolled())
  {
    var ms := items.Unrolled();
    var once := ServeAll(env, s, ms);
    var twice := ServeAll(env, once, ms);
    forall k: Key { KeyTwiceIff(env, s, ms, k); }
    if PatchesSpent(env, once.resources, ms) {
      forall k: Key ensures Get(twice.resources, k) == Get(once.resources, k) {
        assert forall b | (k, b) in ms && b.PatchObject? && (k, ObjectDeleted) !in ms ::
                 Spent(env, Get(once.resources, k), (k, b).1.patchChecksum, (k, b).1.patch);
      }
      SameLookups(twice.resources, once.resources);
    } else {
      var m :| m in ms && m.1.PatchObject? && (m.0, ObjectDeleted) !in ms
               && !Spent(env, Get(once.resources, m.0), m.1.patchChecksum, m.1.patch);
      assert (m.0, m.1) in ms;
      assert Get(twice.resources, m.0) != Get(once.resources, m.0);
    }
  }

  /** A batch with a copy of one version and the patch from there to the next. */
  function CopyAndPatch(env: Env, k: Key, first: Doc, next: Doc): BatchItems {
    BatchItems([], [], [], [PatchItem(k, env.hash(next), Diff(first, next))], [PutItem(k, env.hash(first), first)])
  }

  /** Without the condition it is different: once leaves the first version, twice leaves the next. */
  lemma DuplicateBatchCanDiffer(env: Env, k: Key, first: Doc, next: Doc)
    requires NullFreeDoc(next) && Newer(next, Some(first)) && env.readable(first) && env.readable(next)
    ensures var batch := CopyAndPatch(env, k, first, next).Unrolled();
            var once := ServeAll(env, Served(map[], [], false), batch);
            && Get(once.resources, k) == Some(first)
            && Get(ServeAll(env, once, batch).resources, k) == Some(next)
  {
    var batch := CopyAndPatch(env, k, first, next).Unrolled();
    var patch, put := PatchObject(env.hash(next), Diff(first, next)), PutObject(env.hash(first), first);
    assert batch == [(k, patch), (k, put)];
    ForBoth(k, patch, put);
    var once := ServeAll(env, Served(map[], [], false), batch);
    ServeAllAt(env, Served(map[], [], false), batch, k);
    ServeAllAt(env, once, batch, k);
    TwoSteps(env, None, patch, put);
    TwoSteps(env, Some(first), patch, put);
    MergeOfDiff(first, next);
    assert ServerStep(env, Some(first), patch).stored == Some(next);
  }

  lemma ForBoth(k: Key, a: Body, b: Body)
    ensures For([(k, a), (k, b)], k) == [a, b]
  {
    assert [(k, a), (k, b)][1..] == [(k, b)];
    assert For([(k, b)], k) == [b];
  }

  lemma TwoSteps(env: Env, stored: Option<Doc>, a: Body, b: Body)
    ensures Predicted(env, stored, [a, b]) == ServerStep(env, ServerStep(env, stored, a).stored, b).stored
  {
    assert [a, b][1..] == [b];
    var s := ServerStep(env, stored, a).stored;
    assert Predicted(env, s, [b]) == Predicted(env, ServerStep(env, s, b).stored, []);
  }
}
