/**
 The runs over the ordered link are runs over the bad network, step by step. So what holds on the bad network
 holds for them: an object on the server was there from the start or was once held by the cluster.
 */
module NetRuns {
  import opened Options
  import opened JsonMerge
  import opened Protocol
  import opened Exchange
  import opened World
  import opened Overlap
  import opened EventualConsistency
  import opened WholeCluster
  import Integrity

  /** Reports go up and questions come down. */
  ghost predicate Directed(c: Cloud) {
    && (forall m | m in c.up :: m.1.toServer && !m.1.body.GetObject?)
    && (forall m | m in c.down :: !m.1.toServer && m.1.body.GetObject?)
  }

  ghost predicate Sent(n: Integrity.Net, c: Cloud) {
    Directed(c) && forall m | m in c.up :: (m.0, m.1.body) in n.sent
  }

  ghost predicate DocsKnown(n: Integrity.Net, c: Cloud) {
    && (forall k: Key, e: Event | e in Waiting(c, k) && !e.Deleted? :: (k, e.doc) in n.held)
    && (forall k: Key | k in c.world.cluster :: (k, c.world.cluster[k]) in n.held)
  }

  /** The network looks like the link, has sent what is on its way up, and knows the objects that were held. */
  ghost predicate Covers(n: Integrity.Net, c: Cloud) {
    Sent(n, c) && DocsKnown(n, c) && forall k: Key :: CellOf(n.world, k) == CellOf(c.world, k)
  }

  /** The action of the network that a step of the link amounts to, if it is more than waiting. */
  function ActionOf(env: Env, c: Cloud, a: Act): Option<Integrity.Action> {
    match a
    case About(k, Happen(e)) => Some(Integrity.Change(k, HeldAfter(e)))
    case About(k, Handle) => if Waiting(c, k) == [] then None else Some(Integrity.Process(k, Waiting(c, k)[0]))
    case About(k, Reconcile(r, _)) =>
      (match r
       case Remove => if k in c.world.cluster then None else Some(Integrity.SendDeletion(k))
       case Replace => if k in c.world.cluster then Some(Integrity.SendCopy(k, c.world.cluster[k])) else None
       case Verify =>
         if k in c.world.cluster then Some(Integrity.SendChecksum(k, env.hash(c.world.cluster[k]))) else None)
    case About(_, _) => None
    case Arrive =>
      if c.up == [] || c.up[0].1.depth > MAX_DEPTH then None
      else Some(Integrity.ServerReceives(c.up[0].0, c.up[0].1.body))
    case Reply =>
      if c.down == [] || c.down[0].1.depth > MAX_DEPTH then None
      else Some(Integrity.ClientReceives(c.down[0].0, c.down[0].1.body))
  }

  function NetAfter(env: Env, n: Integrity.Net, c: Cloud, a: Act): Integrity.Net {
    if ActionOf(env, c, a).Some? then Integrity.Act(env, n, ActionOf(env, c, a).value) else n
  }

  lemma StepIsEnabled(env: Env, n: Integrity.Net, c: Cloud, a: Act)
    requires Covers(n, c) && ActionOf(env, c, a).Some?
    ensures Integrity.Enabled(n, ActionOf(env, c, a).value)
  {
    match a
    case About(k, Handle) => assert Waiting(c, k)[0] in Waiting(c, k);
    case About(k, _) =>
    case Arrive => assert c.up[0] in c.up;
    case Reply =>
  }

  lemma SameCellAbout(env: Env, n: Integrity.Net, c: Cloud, k: Key, s: Step, j: Key)
    requires Covers(n, c)
    ensures CellOf(NetAfter(env, n, c, About(k, s)).world, j) == CellOf(Perform(env, c, About(k, s)).world, j)
  {
    assert CellOf(n.world, j) == CellOf(c.world, j) && CellOf(n.world, k) == CellOf(c.world, k);
    if !s.Pass? {
      var w := Do(env, At(c, k), s);
      CellAfterSet(c.world, k, w.link.cell, j);
      SameCellHere(env, n, c, k, s);
      if j != k { SameCellElsewhere(env, n, c, k, s, j); }
    }
  }

  lemma SameCellHere(env: Env, n: Integrity.Net, c: Cloud, k: Key, s: Step)
    requires CellOf(n.world, k) == CellOf(c.world, k) && !s.Pass?
    ensures CellOf(NetAfter(env, n, c, About(k, s)).world, k) == Do(env, At(c, k), s).link.cell
  {
  }

  lemma SameCellElsewhere(env: Env, n: Integrity.Net, c: Cloud, k: Key, s: Step, j: Key)
    requires j != k
    ensures CellOf(NetAfter(env, n, c, About(k, s)).world, j) == CellOf(n.world, j)
  {
  }

  lemma SameCellArrive(env: Env, n: Integrity.Net, c: Cloud, j: Key)
    requires Covers(n, c)
    ensures CellOf(NetAfter(env, n, c, Arrive).world, j) == CellOf(Perform(env, c, Arrive).world, j)
  {
    assert CellOf(n.world, j) == CellOf(c.world, j);
    if c.up != [] {
      var (k, h) := c.up[0];
      assert c.up[0] in c.up && CellOf(n.world, k) == CellOf(c.world, k);
      CellAfterSet(c.world, k, Deliver(env, CellOf(c.world, k), h).0, j);
      GetAfterPut(n.world.server, k, ServerStep(env, Get(n.world.server, k), h.body).stored, j);
    }
  }

  lemma SameCellReply(env: Env, n: Integrity.Net, c: Cloud, j: Key)
    requires Covers(n, c)
    ensures CellOf(NetAfter(env, n, c, Reply).world, j) == CellOf(Perform(env, c, Reply).world, j)
  {
    assert CellOf(n.world, j) == CellOf(c.world, j);
    if c.down != [] {
      var (k, h) := c.down[0];
      assert c.down[0] in c.down && CellOf(n.world, k) == CellOf(c.world, k);
      CellAfterSet(c.world, k, Deliver(env, CellOf(c.world, k), h).0, j);
      var o := ClientStep(env, Get(n.world.cluster, k), Get(n.world.shadow, k), h.body);
      GetAfterPut(n.world.cluster, k, o.held, j);
      GetAfterPut(n.world.shadow, k, o.shadow, j);
    }
  }

  /** The network ends in a state that looks like the link's, at every key. */
  lemma SameCellAfter(env: Env, n: Integrity.Net, c: Cloud, a: Act, j: Key)
    requires Covers(n, c)
    ensures CellOf(NetAfter(env, n, c, a).world, j) == CellOf(Perform(env, c, a).world, j)
  {
    match a
    case About(k, s) => SameCellAbout(env, n, c, k, s, j);
    case Arrive => SameCellArrive(env, n, c, j);
    case Reply => SameCellReply(env, n, c, j);
  }

  lemma ReportIsPosted(env: Env, n: Integrity.Net, c: Cloud, k: Key, s: Step)
    requires Covers(n, c) && Report(env, At(c, k), s).Some?
    ensures var h := Report(env, At(c, k), s).value;
            h.toServer && !h.body.GetObject? && (k, h.body) in NetAfter(env, n, c, About(k, s)).sent
  {
    assert CellOf(n.world, k) == CellOf(c.world, k);
  }

  lemma QueuesAbout(env: Env, n: Integrity.Net, c: Cloud, k: Key, s: Step)
    requires Covers(n, c)
    ensures Sent(NetAfter(env, n, c, About(k, s)), Perform(env, c, About(k, s)))
  {
    var r := Report(env, At(c, k), s);
    if r.Some? { ReportIsPosted(env, n, c, k, s); }
    assert n.sent <= NetAfter(env, n, c, About(k, s)).sent;
    assert s.Pass? ==> Perform(env, c, About(k, s)) == c;
    assert !s.Pass? ==> Perform(env, c, About(k, s)).up == c.up + Labelled(k, r);
    assert Perform(env, c, About(k, s)).down == c.down;
  }

  lemma QueuesArrive(env: Env, n: Integrity.Net, c: Cloud)
    requires Covers(n, c)
    ensures Sent(NetAfter(env, n, c, Arrive), Perform(env, c, Arrive))
  {
    if c.up != [] {
      var (k, h) := c.up[0];
      var r := Deliver(env, CellOf(c.world, k), h).1;
      assert c.up[0] in c.up && forall m | m in c.up[1..] :: m in c.up;
      assert r.Some? ==> !r.value.toServer && r.value.body.GetObject?;
    }
  }

  lemma QueuesReply(env: Env, n: Integrity.Net, c: Cloud)
    requires Covers(n, c)
    ensures Sent(NetAfter(env, n, c, Reply), Perform(env, c, Reply))
  {
    if c.down != [] {
      var (k, h) := c.down[0];
      var r := Deliver(env, CellOf(c.world, k), h).1;
      assert c.down[0] in c.down && forall m | m in c.down[1..] :: m in c.down;
      assert CellOf(n.world, k) == CellOf(c.world, k);
      assert r.Some? ==> r.value.toServer && !r.value.body.GetObject?;
    }
  }

  lemma QueuesAfter(env: Env, n: Integrity.Net, c: Cloud, a: Act)
    requires Covers(n, c)
    ensures Sent(NetAfter(env, n, c, a), Perform(env, c, a)) && n.held <= NetAfter(env, n, c, a).held
  {
    match a
    case About(k, s) => QueuesAbout(env, n, c, k, s);
    case Arrive => QueuesArrive(env, n, c);
    case Reply => QueuesReply(env, n, c);
  }

  lemma DocsAfter(env: Env, n: Integrity.Net, c: Cloud, a: Act)
    requires Covers(n, c)
    ensures DocsKnown(NetAfter(env, n, c, a), Perform(env, c, a))
  {
    var n', c' := NetAfter(env, n, c, a), Perform(env, c, a);
    QueuesAfter(env, n, c, a);
    forall k: Key, e: Event | e in Waiting(c', k) && !e.Deleted? ensures (k, e.doc) in n'.held {
      PerformAt(env, c, a, k);
      assert e in Waiting(c, k) || a == About(k, Happen(e));
    }
    forall k: Key | k in c'.world.cluster ensures (k, c'.world.cluster[k]) in n'.held {
      PerformAt(env, c, a, k);
      assert At(c', k).link.cell.held == Get(c'.world.cluster, k);
      HeldAfterQuestion(env, c, a, k);
    }
  }

  /** Only what happens in the cluster changes it. */
  lemma HeldAfterQuestion(env: Env, c: Cloud, a: Act, k: Key)
    requires Directed(c)
    ensures Get(Perform(env, c, a).world.cluster, k) ==
            if a.About? && a.key == k && a.step.Happen? then HeldAfter(a.step.event) else Get(c.world.cluster, k)
  {
    PerformAt(env, c, a, k);
    assert At(Perform(env, c, a), k).link.cell.held == Get(Perform(env, c, a).world.cluster, k);
    if a.Arrive? && c.up != [] { assert c.up[0] in c.up; HeadFor(c.up, k); }
    if a.Reply? && c.down != [] { assert c.down[0] in c.down; HeadFor(c.down, k); }
  }

  lemma HeadFor<T>(log: seq<(Key, T)>, k: Key)
    requires log != []
    ensures log[0].0 == k ==> For(log, k) != [] && For(log, k)[0] == log[0].1
  {
  }

  /** Each step of the link is an action of the network, or nothing to it. */
  lemma StepIsCovered(env: Env, n: Integrity.Net, c: Cloud, a: Act)
    requires Covers(n, c)
    ensures Covers(NetAfter(env, n, c, a), Perform(env, c, a))
    ensures ActionOf(env, c, a).Some? ==> Integrity.Enabled(n, ActionOf(env, c, a).value)
  {
    if ActionOf(env, c, a).Some? { StepIsEnabled(env, n, c, a); }
    QueuesAfter(env, n, c, a);
    DocsAfter(env, n, c, a);
    forall k: Key ensures CellOf(NetAfter(env, n, c, a).world, k) == CellOf(Perform(env, c, a).world, k) {
      SameCellAfter(env, n, c, a, k);
    }
  }

  function NetAfterAll(env: Env, n: Integrity.Net, c: Cloud, acts: seq<Act>): Integrity.Net
    decreases acts
  {
    if acts == [] then n else NetAfterAll(env, NetAfter(env, n, c, acts[0]), Perform(env, c, acts[0]), acts[1..])
  }

  lemma {:induction false} RunIsCovered(env: Env, initial: map<Key, Doc>, n: Integrity.Net, c: Cloud, acts: seq<Act>)
    requires CollisionFree(env) && Covers(n, c) && Integrity.Sound(env, initial, n)
    ensures Covers(NetAfterAll(env, n, c, acts), PerformAll(env, c, acts))
    ensures Integrity.Sound(env, initial, NetAfterAll(env, n, c, acts))
    decreases acts
  {
    if acts != [] {
      StepIsCovered(env, n, c, acts[0]);
      if ActionOf(env, c, acts[0]).Some? {
        Integrity.StepIsSound(env, initial, n, ActionOf(env, c, acts[0]).value);
      }
      RunIsCovered(env, initial, NetAfter(env, n, c, acts[0]), Perform(env, c, acts[0]), acts[1..]);
    }
  }

  // ---------------------------------------------------------------- what was held

  /** The object was held by the cluster at the start, or came with something that happened. */
  ghost predicate EverHeld(c: Cloud, acts: seq<Act>, k: Key, d: Doc) {
    || Get(c.world.cluster, k) == Some(d)
    || exists i :: 0 <= i < |acts| && acts[i].About? && acts[i].key == k && acts[i].step.Happen?
                   && HeldAfter(acts[i].step.event) == Some(d)
  }

  lemma HeldGrows(env: Env, n: Integrity.Net, c: Cloud, a: Act, k: Key, d: Doc)
    requires Covers(n, c) && (k, d) in NetAfter(env, n, c, a).held && (k, d) !in n.held
    ensures a.About? && a.key == k && a.step.Happen? && HeldAfter(a.step.event) == Some(d)
  {
    if a.Reply? && c.down != [] {
      assert c.down[0] in c.down && CellOf(n.world, c.down[0].0) == CellOf(c.world, c.down[0].0);
    }
  }

  lemma {:induction false} HeldAlongRun(env: Env, n: Integrity.Net, c: Cloud, acts: seq<Act>, k: Key, d: Doc)
    requires Covers(n, c) && (k, d) in NetAfterAll(env, n, c, acts).held && (k, d) !in n.held
    ensures exists i :: 0 <= i < |acts| && acts[i].About? && acts[i].key == k && acts[i].step.Happen?
                        && HeldAfter(acts[i].step.event) == Some(d)
    decreases acts
  {
    StepIsCovered(env, n, c, acts[0]);
    var n1 := NetAfter(env, n, c, acts[0]);
    if (k, d) in n1.held {
      HeldGrows(env, n, c, acts[0], k, d);
      assert acts[0].key == k;
    } else {
      HeldAlongRun(env, n1, Perform(env, c, acts[0]), acts[1..], k, d);
      var i :| 0 <= i < |acts[1..]| && acts[1..][i].About? && acts[1..][i].key == k && acts[1..][i].step.Happen?
               && HeldAfter(acts[1..][i].step.event) == Some(d);
      assert acts[i + 1] == acts[1..][i];
    }
  }

  /** Nothing under way and nothing waiting. */
  ghost predicate Fresh(c: Cloud) {
    c.up == [] && c.down == [] && forall k: Key :: Waiting(c, k) == []
  }

  function StartOf(c: Cloud): Integrity.Net {
    Integrity.Net(c.world, set k | k in c.world.cluster :: (k, c.world.cluster[k]), {})
  }

  /**
   In every run of the whole cluster over the link, each object on the server was there from the start, or is a
   version that the cluster held for that key at some time, up to null members.
   */
  lemma LinkStoresOnlyRealVersions(env: Env, c: Cloud, acts: seq<Act>, k: Key)
    requires CollisionFree(env) && Fresh(c) && k in PerformAll(env, c, acts).world.server
    ensures var v := PerformAll(env, c, acts).world.server[k];
            || Get(c.world.server, k) == Some(v)
            || exists d: Doc :: EverHeld(c, acts, k, d) && SameUpToNulls(v, d) && (NullFreeDoc(d) ==> v == d)
  {
    var n, c' := StartOf(c), PerformAll(env, c, acts);
    var n', v := NetAfterAll(env, n, c, acts), c'.world.server[k];
    RunIsCovered(env, c.world.server, n, c, acts);
    assert CellOf(n'.world, k) == CellOf(c'.world, k);
    assert Get(n'.world.server, k) == Some(v);
    if Get(c.world.server, k) != Some(v) {
      assert Integrity.Genuine(n'.held, k, v);
      var d: Doc :| (k, d) in n'.held && Integrity.ImageOf(v, d);
      if (k, d) !in n.held { HeldAlongRun(env, n, c, acts, k, d); }
      assert EverHeld(c, acts, k, d);
      if v != d {
        var base: Doc :| v == Merge(base, Diff(base, d));
        AppliedPatch(base, d);
      }
    }
  }
}
