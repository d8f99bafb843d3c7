/**
 Runs over a network that may lose, duplicate and reorder anything on its way to the server, and may
 hand the client any message at all. Whatever the server then stores was once really held.
 */
module Integrity {
  import opened Options
  import opened JsonMerge
  import opened Protocol
  import opened World

  /** `held` records every version the cluster ever held; `sent` everything the client ever sent. */
  datatype Net = Net(world: World, held: set<(Key, Doc)>, sent: set<(Key, Body)>)

  datatype Action =
    /** the cluster changes by itself */
    | Change(key: Key, current: Option<Doc>)
    /** the client processes an event for some version that the cluster held */
    | Process(key: Key, event: Event)
    /** reconciliation sends a listed object, a checksum or a deletion */
    | SendCopy(key: Key, doc: Doc)
    | SendChecksum(key: Key, checksum: string)
    | SendDeletion(key: Key)
    /** the client handles any message whatsoever */
    | ClientReceives(key: Key, body: Body)
    /** the server handles something that was once sent, possibly late, out of order or again */
    | ServerReceives(key: Key, body: Body)

  predicate Enabled(n: Net, a: Action) {
    match a
    case Process(k, Added(d)) => (k, d) in n.held
    case Process(k, Modified(d)) => (k, d) in n.held
    case SendCopy(k, d) => (k, d) in n.held
    case ServerReceives(k, b) => (k, b) in n.sent
    case _ => true
  }

  function Recorded(k: Key, d: Option<Doc>): set<(Key, Doc)> {
    if d.Some? then {(k, d.value)} else {}
  }

  function Posted(k: Key, b: Option<Body>): set<(Key, Body)> {
    if b.Some? then {(k, b.value)} else {}
  }

  function Act(env: Env, n: Net, a: Action): Net {
    var w := n.world;
    match a
    case Change(k, d) => Net(w.(cluster := Put(w.cluster, k, d)), n.held + Recorded(k, d), n.sent)
    case Process(k, e) =>
      var s := ClientEvent(env, Get(w.shadow, k), e);
      Net(w.(shadow := Put(w.shadow, k, s.shadow)), n.held, n.sent + Posted(k, s.message))
    case SendCopy(k, d) => n.(sent := n.sent + {(k, PutObject(ChecksumOf(env, d), d))})
    case SendChecksum(k, c) => Net(w.(shadow := w.shadow - {k}), n.held, n.sent + {(k, NewChecksum(c))})
    case SendDeletion(k) => n.(sent := n.sent + {(k, ObjectDeleted)})
    case ClientReceives(k, b) =>
      var o := ClientStep(env, Get(w.cluster, k), Get(w.shadow, k), b);
      Net(w.(cluster := Put(w.cluster, k, o.held), shadow := Put(w.shadow, k, o.shadow)),
          n.held + Recorded(k, o.held), n.sent + Posted(k, o.reply))
    case ServerReceives(k, b) =>
      n.(world := w.(server := Put(w.server, k, ServerStep(env, Get(w.server, k), b).stored)))
  }

  /** v is d itself, or what applying a diff towards d leaves. */
  ghost predicate ImageOf(v: Doc, d: Doc) {
    v == d || exists base: Doc :: v == Merge(base, Diff(base, d))
  }

  ghost predicate Genuine(held: set<(Key, Doc)>, k: Key, v: Doc) {
    exists d: Doc :: (k, d) in held && ImageOf(v, d)
  }

  /** A message carries a version that was held, or the checksum of its image. */
  ghost predicate GenuineMessage(env: Env, held: set<(Key, Doc)>, k: Key, b: Body) {
    match b
    case PutObject(_, d) => (k, d) in held
    case PatchObject(c, _) => exists v: Doc :: c == env.hash(v) && Genuine(held, k, v)
    case _ => true
  }

  ghost predicate Sound(env: Env, initial: map<Key, Doc>, n: Net) {
    && (forall k: Key | k in n.world.cluster :: (k, n.world.cluster[k]) in n.held)
    && (forall m | m in n.sent :: GenuineMessage(env, n.held, m.0, m.1))
    && (forall k: Key | k in n.world.server ::
          Get(initial, k) == Some(n.world.server[k]) || Genuine(n.held, k, n.world.server[k]))
  }

  lemma GenuineGrows(env: Env, held: set<(Key, Doc)>, more: set<(Key, Doc)>, k: Key, b: Body, v: Doc)
    requires held <= more
    ensures Genuine(held, k, v) ==> Genuine(more, k, v)
    ensures GenuineMessage(env, held, k, b) ==> GenuineMessage(env, more, k, b)
  {
    if b.PatchObject? && GenuineMessage(env, held, k, b) {
      var u: Doc :| b.patchChecksum == env.hash(u) && Genuine(held, k, u);
      var d: Doc :| (k, d) in held && ImageOf(u, d);
      assert (k, d) in more;
      assert Genuine(more, k, u);
    }
  }

  /** Everything put-or-patch sends is genuine. */
  lemma SendsGenuine(env: Env, held: set<(Key, Doc)>, k: Key, shadow: Option<Doc>, base: Option<Doc>, d: Doc)
    requires (k, d) in held
    ensures var m := PutOrPatch(env, shadow, base, d).message; m.Some? ==> GenuineMessage(env, held, k, m.value)
  {
    var known := if base.Some? then base else shadow;
    if env.strategy.Patch? && known.Some? {
      var v := Merge(known.value, Diff(known.value, d));
      assert ImageOf(v, d);
      assert Genuine(held, k, v);
    }
  }

  /** Whatever the server stores on receiving a genuine message is genuine. */
  lemma StoresGenuine(env: Env, held: set<(Key, Doc)>, k: Key, stored: Option<Doc>, b: Body)
    requires CollisionFree(env) && GenuineMessage(env, held, k, b)
    ensures var s := ServerStep(env, stored, b).stored; s.None? || s == stored || Genuine(held, k, s.value)
  {
    match b
    case PatchObject(c, p) =>
      var v: Doc :| c == env.hash(v) && Genuine(held, k, v);
      if stored.Some? && env.hash(Merge(stored.value, p)) == c {
        assert Merge(stored.value, p) == v;
      }
    case PutObject(_, d) => assert ImageOf(d, d);
    case _ =>
  }

  lemma StepIsSound(env: Env, initial: map<Key, Doc>, n: Net, a: Action)
    requires CollisionFree(env) && Sound(env, initial, n) && Enabled(n, a)
    ensures Sound(env, initial, Act(env, n, a))
  {
    var n' := Act(env, n, a);
    forall m | m in n.sent ensures GenuineMessage(env, n'.held, m.0, m.1) {
      GenuineGrows(env, n.held, n'.held, m.0, m.1, map[]);
    }
    forall k: Key, v: Doc | Genuine(n.held, k, v) ensures Genuine(n'.held, k, v) {
      GenuineGrows(env, n.held, n'.held, k, ObjectDeleted, v);
    }
    match a
    case Process(k, Modified(d)) => SendsGenuine(env, n'.held, k, Get(n.world.shadow, k), None, d);
    case ClientReceives(k, GetObject(base)) =>
      if k in n.world.cluster {
        SendsGenuine(env, n'.held, k, Get(n.world.shadow, k), base, n.world.cluster[k]);
      }
    case ServerReceives(k, b) => StoresGenuine(env, n.held, k, Get(n.world.server, k), b);
    case _ =>
  }

  ghost predicate IsRun(env: Env, nets: seq<Net>, actions: seq<Action>) {
    && |nets| == |actions| + 1
    && forall i | 0 <= i < |actions| :: Enabled(nets[i], actions[i]) && nets[i + 1] == Act(env, nets[i], actions[i])
  }

  /** The start of a run: nothing sent yet, and what the cluster holds is on record. */
  ghost predicate Start(n: Net) {
    n.sent == {} && forall k: Key | k in n.world.cluster :: (k, n.world.cluster[k]) in n.held
  }

  lemma {:induction false} RunIsSound(env: Env, nets: seq<Net>, actions: seq<Action>, i: nat)
    requires CollisionFree(env) && IsRun(env, nets, actions) && Start(nets[0]) && i < |nets|
    ensures Sound(env, nets[0].world.server, nets[i])
  {
    if i > 0 {
      RunIsSound(env, nets, actions, i - 1);
      StepIsSound(env, nets[0].world.server, nets[i - 1], actions[i - 1]);
    }
  }

  /**
   At every moment of every run, an object on the server is the initial one, or a version the cluster
   once held for that key, up to null members; exactly that version when it has no nulls.
   */
  lemma ServerStoresOnlyRealVersions(env: Env, nets: seq<Net>, actions: seq<Action>, i: nat, k: Key)
    requires CollisionFree(env) && IsRun(env, nets, actions) && Start(nets[0]) && i < |nets|
    requires k in nets[i].world.server
    ensures var v := nets[i].world.server[k];
            || Get(nets[0].world.server, k) == Some(v)
            || exists d: Doc :: (k, d) in nets[i].held && SameUpToNulls(v, d) && (NullFreeDoc(d) ==> v == d)
  {
    RunIsSound(env, nets, actions, i);
    var v := nets[i].world.server[k];
    if Get(nets[0].world.server, k) != Some(v) {
      var d: Doc :| (k, d) in nets[i].held && ImageOf(v, d);
      if v != d {
        var base: Doc :| v == Merge(base, Diff(base, d));
        AppliedPatch(base, d);
      }
    }
  }
}
