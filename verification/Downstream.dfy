/** Exchanges that the server's side starts: its object reaches the cluster. */
module Downstream {
  import opened Options
  import opened JsonMerge
  import opened Versions
  import opened Protocol
  import opened Exchange

  /** The cluster's object has the content of v; metadata may differ. */
  ghost predicate HasContentOf(held: Option<Doc>, v: Doc) {
    held.Some? && forall k | k != METADATA :: Get(held.value, k) == Get(v, k)
  }

  /** The API server stores the content it is given; the metadata, with the version, is its own affair. */
  ghost predicate Obedient(env: Env) {
    forall current: Option<Doc>, d: Doc :: HasContentOf(env.admit(current, d), d)
  }

  lemma WriteHasContent(env: Env, held: Option<Doc>, v: Doc)
    requires Obedient(env) && HasMetadata(v) && (held.Some? ==> HasMetadata(held.value))
    ensures HasContentOf(ClusterWrite(env, held, v), v)
  {
  }

  /** A get request brings the server's object down. */
  lemma GetBringsCopy(env: Env, c: Cell, depth: nat)
    requires Obedient(env) && c.stored.Some? && HasMetadata(c.stored.value)
    requires c.held.Some? ==> HasMetadata(c.held.value)
    requires depth <= MAX_DEPTH - 1
    ensures var (c', t) := Run(env, c, Hop(true, depth, GetObject(None)));
            && |t| == 2 && c'.stored == c.stored && c'.shadow == c.shadow
            && HasContentOf(c'.held, c.stored.value)
  {
    var o := c.stored.value;
    var get, put := Hop(true, depth, GetObject(None)), Hop(false, depth + 1, PutObject("", o));
    assert Deliver(env, c, get) == (c, Some(put));
    WriteHasContent(env, c.held, o);
    assert Run(env, c, put).1 == [put];
  }

  /** A checksum that does not match the cluster's object ends with the server's content in the cluster. */
  lemma ChecksumBringsCopy(env: Env, c: Cell, depth: nat)
    requires Obedient(env) && CollisionFree(env) && c.stored.Some? && HasMetadata(c.stored.value)
    requires c.held.Some? ==> HasMetadata(c.held.value)
    requires depth <= MAX_DEPTH - 2
    ensures var (c', t) := Run(env, c, Hop(false, depth, NewChecksum(env.hash(c.stored.value))));
            && c'.stored == c.stored && HasContentOf(c'.held, c.stored.value)
            && |t| == if c.held == c.stored then 1 else 3
  {
    var first := Hop(false, depth, NewChecksum(env.hash(c.stored.value)));
    if c.held != c.stored {
      var get := Hop(true, depth + 1, GetObject(None));
      assert Deliver(env, c, first) == (c, Some(get));
      GetBringsCopy(env, c, depth + 1);
      assert Run(env, c, first).1 == [first] + Run(env, c, get).1;
    }
  }

  /** A diff towards an object with metadata leaves an object with metadata. */
  lemma PatchKeepsMetadata(base: Doc, next: Doc)
    requires HasMetadata(next)
    ensures HasMetadata(Merge(base, Diff(base, next)))
  {
    MergedAt(Obj(base), Obj(next), METADATA);
  }

  lemma FittingPatch(env: Env, c: Cell, base: Doc, depth: nat)
    requires Obedient(env) && CollisionFree(env) && env.strategy.Patch? && depth <= MAX_DEPTH
    requires c.held.Some? && HasMetadata(c.held.value) && c.stored.Some? && HasMetadata(c.stored.value)
    requires var p := Diff(base, c.stored.value); env.hash(Merge(c.held.value, p)) == env.hash(Merge(base, p))
    ensures var p := Diff(base, c.stored.value);
            var first := Hop(false, depth, PatchObject(env.hash(Merge(base, p)), p));
            var (c', t) := Run(env, c, first);
            t == [first] && c'.stored == c.stored && c'.shadow == Some(Merge(base, p))
                && HasContentOf(c'.held, Merge(base, p))
  {
    var p := Diff(base, c.stored.value);
    PatchKeepsMetadata(base, c.stored.value);
    assert Merge(c.held.value, p) == Merge(base, p);
    WriteHasContent(env, c.held, Merge(base, p));
  }

  /**
   A patch from the server, made against any base at all, settles in at most three messages with the
   server's content in the cluster: applied when it fits, replaced by a full copy when it does not.
   */
  lemma PatchBringsContent(env: Env, c: Cell, base: Doc, depth: nat)
    requires Obedient(env) && CollisionFree(env) && c.stored.Some? && HasMetadata(c.stored.value)
    requires c.held.Some? ==> HasMetadata(c.held.value)
    requires depth <= MAX_DEPTH - 2
    ensures var o := c.stored.value;
            var (c', t) := Run(env, c,
                Hop(false, depth, PatchObject(env.hash(Merge(base, Diff(base, o))), Diff(base, o))));
            && |t| <= 3 && c'.stored == c.stored
            && (exists v: Doc :: SameUpToNulls(v, o) && HasContentOf(c'.held, v))
            && (NullFreeDoc(o) ==> HasContentOf(c'.held, o))
            && (|t| == 1 && NullFreeDoc(o) ==> c'.shadow == c.stored)
  {
    var o := c.stored.value;
    var v, p := Merge(base, Diff(base, o)), Diff(base, o);
    var first := Hop(false, depth, PatchObject(env.hash(v), p));
    AppliedPatch(base, o);
    if env.strategy.Patch? && c.held.Some? && env.hash(Merge(c.held.value, p)) == env.hash(v) {
      FittingPatch(env, c, base, depth);
    } else {
      var get := Hop(true, depth + 1, GetObject(None));
      assert Deliver(env, c, first) == (c, Some(get));
      GetBringsCopy(env, c, depth + 1);
      assert Run(env, c, first).1 == [first] + Run(env, c, get).1;
      assert SameUpToNulls(o, o);
    }
  }

  /** After a deletion from the server, the next change of the key goes up as a full copy again. */
  lemma DeletionForgetsShadow(env: Env, c: Cell, depth: nat, d: Doc)
    requires depth <= MAX_DEPTH
    ensures var (c', t) := Run(env, c, Hop(false, depth, ObjectDeleted));
            && |t| == 1 && c'.held.None? && c'.stored == c.stored
            && ClientEvent(env, c'.shadow, Modified(d)).message == Some(PutObject(ChecksumOf(env, d), d))
  {
    assert Deliver(env, c, Hop(false, depth, ObjectDeleted)).1.None?;
  }

  /** With whole copies only, the client takes no patch: it asks, nothing changes, and the copy then comes. */
  lemma CopyClientAsks(env: Env, c: Cell, depth: nat, checksum: string, patch: Doc)
    requires env.strategy.Copy? && depth <= MAX_DEPTH
    ensures Deliver(env, c, Hop(false, depth, PatchObject(checksum, patch))) ==
            (c, Some(Hop(true, depth + 1, GetObject(None))))
  {
  }

  /** A fitting patch that the cluster refuses leaves the object alone, asks for a copy, and has moved the shadow. */
  lemma RefusedWriteAsks(env: Env, c: Cell, depth: nat, patch: Doc)
    requires env.strategy.Patch? && depth <= MAX_DEPTH && c.held.Some?
    requires ClusterWrite(env, c.held, Merge(c.held.value, patch)).None?
    ensures var modified := Merge(c.held.value, patch);
            Deliver(env, c, Hop(false, depth, PatchObject(env.hash(modified), patch))) ==
            (c.(shadow := Some(modified)), Some(Hop(true, depth + 1, GetObject(None))))
  {
  }
}
