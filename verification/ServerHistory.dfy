/** What any sequence of messages can do to an object that the server stores. */
module ServerHistory {
  import opened Options
  import opened JsonMerge
  import opened Versions
  import opened Protocol
  import opened Exchange
  import opened ShadowPrediction
  import opened Downstream

  /** Every object stored along the way has metadata that can be read. */
  predicate ReadableThroughout(env: Env, stored: Option<Doc>, bodies: seq<Body>)
    decreases bodies
  {
    && (stored.Some? ==> env.readable(stored.value))
    && (bodies == [] || ReadableThroughout(env, ServerStep(env, stored, bodies[0]).stored, bodies[1..]))
  }

  /** Between deletions, the stored object only ever gives way to one with a larger version. */
  lemma {:induction false} VersionsNeverGoBack(env: Env, stored: Option<Doc>, bodies: seq<Body>)
    requires stored.Some? && ReadableThroughout(env, stored, bodies)
    requires ObjectDeleted !in bodies
    ensures var after := Predicted(env, stored, bodies);
            after.Some? && (after == stored || StringValueBigger(RawVersion(after.value), RawVersion(stored.value)))
    decreases bodies
  {
    if bodies != [] {
      var next := ServerStep(env, stored, bodies[0]).stored;
      assert bodies[0] in bodies;
      assert next.Some? && (next == stored || StringValueBigger(RawVersion(next.value), RawVersion(stored.value)));
      VersionsNeverGoBack(env, next, bodies[1..]);
    }
  }

  /** An exchange about a version that is not newer leaves the server's object alone. */
  lemma NotNewerIsKept(env: Env, stored: Doc, obj: Doc)
    requires env.readable(stored) && env.readable(obj)
    requires !StringValueBigger(RawVersion(obj), RawVersion(stored))
    ensures SaveIfNewer(env, Some(stored), obj) == Some(stored)
  {
  }

  /** The metadata of the server's object, the client's, and what patches between them lead to can be read. */
  predicate ReadableConflict(env: Env, stored: Doc, shadow: Option<Doc>, d: Doc) {
    && env.readable(stored) && env.readable(d) && env.readable(Merge(stored, Diff(stored, d)))
    && (shadow.Some? ==> env.readable(Merge(shadow.value, Diff(shadow.value, d))))
  }

  /**
   Both sides changed the object and ended on versions of which the client's is not the larger one: the
   server keeps its copy, and once a get request is answered the cluster has the server's content too.
   */
  lemma ConflictEndsWithServerCopy(env: Env, c: Cell, d: Doc, depth: nat)
    requires CollisionFree(env) && c.stored.Some? && ReadableConflict(env, c.stored.value, c.shadow, d)
    requires c.held == Some(d) && !StringValueBigger(RawVersion(d), RawVersion(c.stored.value))
    ensures var c' := Settle(env, c, Modified(d)).0;
            && c'.stored == c.stored && c'.held == c.held
            && (Obedient(env) && HasMetadata(d) && HasMetadata(c.stored.value) && depth < MAX_DEPTH ==>
                 var c'' := Run(env, c', Hop(true, depth, GetObject(None))).0;
                 c''.stored == c.stored && HasContentOf(c''.held, c.stored.value))
  {
    var o := c.stored.value;
    var s := ClientEvent(env, c.shadow, Modified(d));
    if s.message.Some? {
      var c1 := c.(shadow := s.shadow);
      var first := Hop(true, 1, s.message.value);
      if s.message.value.PutObject? {
        NotNewerIsKept(env, o, d);
      } else {
        ConflictPatch(env, c1, c.shadow.value, d, first);
      }
    }
    if Obedient(env) && HasMetadata(d) && HasMetadata(o) && depth < MAX_DEPTH {
      GetBringsCopy(env, Settle(env, c, Modified(d)).0, depth);
    }
  }

  lemma ConflictPatch(env: Env, c: Cell, base: Doc, d: Doc, first: Hop)
    requires CollisionFree(env) && c.stored.Some? && ReadableConflict(env, c.stored.value, Some(base), d)
    requires env.strategy.Patch? && c.held == Some(d)
    requires !StringValueBigger(RawVersion(d), RawVersion(c.stored.value))
    requires first == Hop(true, 1, PatchObject(env.hash(Merge(base, Diff(base, d))), Diff(base, d)))
    ensures var c' := Run(env, c, first).0; c'.stored == c.stored && c'.held == c.held
  {
    var o := c.stored.value;
    if env.hash(Merge(o, Diff(base, d))) == env.hash(Merge(base, Diff(base, d))) {
      AcceptedPatch(env, base, d, o);
      AppliedPatch(base, d);
      NotNewerIsKept(env, o, Merge(o, Diff(base, d)));
    } else {
      var get := Hop(false, 2, GetObject(c.stored));
      assert Deliver(env, c, first) == (c, Some(get));
      var c2 := Deliver(env, c, get).0;
      var second := Deliver(env, c, get).1;
      if second.Some? {
        AppliedPatch(o, d);
        NotNewerIsKept(env, o, Merge(o, Diff(o, d)));
        assert Run(env, c2, second.value).0 == c2;
      }
    }
  }
}
