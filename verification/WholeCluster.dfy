/**
 All keys at once over one ordered link in each direction. Seen from a key, the link carries that key's
 messages alone, so what holds for one key holds for the whole cluster.
 */
module WholeCluster {
  import opened Options
  import opened JsonMerge
  import opened Versions
  import opened Protocol
  import opened Exchange
  import opened World
  import opened Histories
  import opened Overlap
  import opened EventualConsistency
  import Reconciliation
  import Cooldown

  datatype Cloud = Cloud(
    world: World, up: seq<(Key, Hop)>, down: seq<(Key, Hop)>, seen: map<Key, Doc>, pending: map<Key, seq<Event>>)

  /** Something happens about a key on the client's side, or the oldest message in one direction arrives. */
  datatype Act = About(key: Key, step: Step) | Arrive | Reply

  function Waiting(c: Cloud, k: Key): seq<Event> {
    if k in c.pending then c.pending[k] else []
  }

  /** What concerns one key. */
  function At(c: Cloud, k: Key): Watched {
    Watched(Duplex(CellOf(c.world, k), For(c.up, k), For(c.down, k)), Get(c.seen, k), Waiting(c, k))
  }

  function Labelled(k: Key, h: Option<Hop>): seq<(Key, Hop)> {
    if h.Some? then [(k, h.value)] else []
  }

  /** What the client sends in this step. */
  function Report(env: Env, w: Watched, s: Step): Option<Hop> {
    var depth := if s.Reconcile? then s.depth else 1;
    var m :=
      if s.Reconcile? then RepairMessage(env, w.link.cell.held, s.repair)
      else if s.Handle? && w.pending != [] then ClientEvent(env, w.link.cell.shadow, w.pending[0]).message
      else None;
    if m.Some? then Some(Hop(true, depth, m.value)) else None
  }

  lemma ReportIsSent(env: Env, w: Watched, s: Step)
    requires !s.Pass?
    ensures Do(env, w, s).link.up == w.link.up + ToSeq(Report(env, w, s)) && Do(env, w, s).link.down == w.link.down
  {
  }

  function Perform(env: Env, c: Cloud, a: Act): Cloud {
    match a
    case About(k, s) =>
      if s.Pass? then c
      else
        var w := Do(env, At(c, k), s);
        c.(world := SetCell(c.world, k, w.link.cell), up := c.up + Labelled(k, Report(env, At(c, k), s)),
           seen := Put(c.seen, k, w.seen), pending := c.pending[k := w.pending])
    case Arrive =>
      if c.up == [] then c
      else
        var (k, h) := c.up[0];
        var (cell, r) := Deliver(env, CellOf(c.world, k), h);
        c.(world := SetCell(c.world, k, cell), up := c.up[1..], down := c.down + Labelled(k, r))
    case Reply =>
      if c.down == [] then c
      else
        var (k, h) := c.down[0];
        var (cell, r) := Deliver(env, CellOf(c.world, k), h);
        c.(world := SetCell(c.world, k, cell), down := c.down[1..], up := c.up + Labelled(k, r))
  }

  function PerformAll(env: Env, c: Cloud, acts: seq<Act>): Cloud
    decreases acts
  {
    if acts == [] then c else PerformAll(env, Perform(env, c, acts[0]), acts[1..])
  }

  // ---------------------------------------------------------------- one key

  /** The step of this key that an act amounts to; none when it concerns another key. */
  function StepAt(c: Cloud, a: Act, k: Key): Option<Step> {
    match a
    case About(j, s) => if j == k && !s.Pass? then Some(s) else None
    case Arrive => if c.up != [] && c.up[0].0 == k then Some(Pass(Up)) else None
    case Reply => if c.down != [] && c.down[0].0 == k then Some(Pass(Down)) else None
  }

  lemma ForLabelled(k: Key, h: Option<Hop>, j: Key)
    ensures For(Labelled(k, h), j) == if j == k then ToSeq(h) else []
  {
  }

  lemma AboutAt(env: Env, c: Cloud, j: Key, s: Step, k: Key)
    ensures At(Perform(env, c, About(j, s)), k) == if j == k && !s.Pass? then Do(env, At(c, k), s) else At(c, k)
  {
    if !s.Pass? {
      var w, r := Do(env, At(c, j), s), Report(env, At(c, j), s);
      ReportIsSent(env, At(c, j), s);
      CellAfterSet(c.world, j, w.link.cell, k);
      GetAfterPut(c.seen, j, w.seen, k);
      ForAppend(c.up, Labelled(j, r), k);
      ForLabelled(j, r, k);
    }
  }

  lemma ArriveAt(env: Env, c: Cloud, k: Key)
    ensures At(Perform(env, c, Arrive), k) ==
            if c.up != [] && c.up[0].0 == k then Do(env, At(c, k), Pass(Up)) else At(c, k)
  {
    if c.up != [] {
      var (j, h) := c.up[0];
      var (cell, r) := Deliver(env, CellOf(c.world, j), h);
      CellAfterSet(c.world, j, cell, k);
      ForAppend(c.down, Labelled(j, r), k);
      ForLabelled(j, r, k);
      if j == k { assert For(c.up, k)[1..] == For(c.up[1..], k); }
    }
  }

  lemma ReplyAt(env: Env, c: Cloud, k: Key)
    ensures At(Perform(env, c, Reply), k) ==
            if c.down != [] && c.down[0].0 == k then Do(env, At(c, k), Pass(Down)) else At(c, k)
  {
    if c.down != [] {
      var (j, h) := c.down[0];
      var (cell, r) := Deliver(env, CellOf(c.world, j), h);
      CellAfterSet(c.world, j, cell, k);
      ForAppend(c.up, Labelled(j, r), k);
      ForLabelled(j, r, k);
      if j == k { assert For(c.down, k)[1..] == For(c.down[1..], k); }
    }
  }

  /** An act is a step of the one key it concerns, and leaves the others alone. */
  lemma PerformAt(env: Env, c: Cloud, a: Act, k: Key)
    ensures var s := StepAt(c, a, k);
            At(Perform(env, c, a), k) == if s.Some? then Do(env, At(c, k), s.value) else At(c, k)
  {
    match a
    case About(j, s) => AboutAt(env, c, j, s, k);
    case Arrive => ArriveAt(env, c, k);
    case Reply => ReplyAt(env, c, k);
  }

  // ---------------------------------------------------------------- whole runs

  ghost predicate TidyAll(env: Env, c: Cloud) {
    forall k: Key :: Tidy(env, At(c, k))
  }

  /** What happens in the cluster brings regular objects with growing versions. */
  predicate ProperAct(env: Env, c: Cloud, a: Act) {
    a.About? ==> Proper(env, At(c, a.key), a.step)
  }

  predicate ProperActs(env: Env, c: Cloud, acts: seq<Act>)
    decreases acts
  {
    acts == [] || (ProperAct(env, c, acts[0]) && ProperActs(env, Perform(env, c, acts[0]), acts[1..]))
  }

  /** Deliveries alone would lead to the cluster's content for this key. */
  predicate SafeNow(env: Env, c: Cloud, k: Key) {
    var y := Arrived(env, At(c, k).link);
    OnlyQuestions(y.down) && Reaches(env, y)
  }

  predicate SafeAfterAct(env: Env, c: Cloud, a: Act, k: Key, safe: bool) {
    var s := StepAt(c, a, k);
    if s.Some? then SafeAfter(env, At(c, k), s.value, safe) else safe
  }

  /** It was safe to handle the event of this key after which no further one was waiting last. */
  predicate SafeAtLast(env: Env, c: Cloud, acts: seq<Act>, k: Key, safe: bool)
    decreases acts
  {
    if acts == [] then safe
    else SafeAtLast(env, Perform(env, c, acts[0]), acts[1..], k, SafeAfterAct(env, c, acts[0], k, safe))
  }

  lemma ActStaysTidy(env: Env, c: Cloud, a: Act)
    requires CollisionFree(env) && TidyAll(env, c) && ProperAct(env, c, a)
    ensures TidyAll(env, Perform(env, c, a))
  {
    forall k: Key ensures Tidy(env, At(Perform(env, c, a), k)) {
      PerformAt(env, c, a, k);
      assert Tidy(env, At(c, k));
      if StepAt(c, a, k).Some? { StepStaysTidy(env, At(c, k), StepAt(c, a, k).value); }
    }
  }

  lemma ActStaysSettling(env: Env, c: Cloud, a: Act, k: Key, safe: bool)
    requires CollisionFree(env) && ProperAct(env, c, a) && Settling(env, At(c, k), safe)
    ensures Settling(env, At(Perform(env, c, a), k), SafeAfterAct(env, c, a, k, safe))
  {
    PerformAt(env, c, a, k);
    if StepAt(c, a, k).Some? { StepStaysSettling(env, At(c, k), StepAt(c, a, k).value, safe); }
  }

  lemma {:induction false} RunStaysSettling(env: Env, c: Cloud, acts: seq<Act>, k: Key, safe: bool)
    requires CollisionFree(env) && ProperActs(env, c, acts) && Settling(env, At(c, k), safe)
    ensures Settling(env, At(PerformAll(env, c, acts), k), SafeAtLast(env, c, acts, k, safe))
    decreases acts
  {
    if acts != [] {
      ActStaysSettling(env, c, acts[0], k, safe);
      RunStaysSettling(env, Perform(env, c, acts[0]), acts[1..], k, SafeAfterAct(env, c, acts[0], k, safe));
    }
  }

  /** Nothing waits and nothing is under way. */
  ghost predicate Finished(c: Cloud) {
    c.up == [] && c.down == [] && forall k: Key :: Waiting(c, k) == []
  }

  /**
   A run that has finished, with all kinds of events, delays, overrides and deliveries, leaves a key's content
   on the server if and only if the last handling of that key was safe.
   */
  lemma KeyIsReplicatedIff(env: Env, c: Cloud, acts: seq<Act>, k: Key)
    requires CollisionFree(env) && TidyAll(env, c) && ProperActs(env, c, acts) && Finished(PerformAll(env, c, acts))
    ensures var w := PerformAll(env, c, acts).world;
            Content(Get(w.server, k)) == Content(Get(w.cluster, k)) <==> SafeAtLast(env, c, acts, k, SafeNow(env, c, k))
  {
    var c' := PerformAll(env, c, acts);
    assert Tidy(env, At(c, k));
    AheadShape(env, At(c, k).link, |At(c, k).link.up|);
    RunStaysSettling(env, c, acts, k, SafeNow(env, c, k));
    assert Waiting(c', k) == [];
    assert Arrived(env, At(c', k).link) == At(c', k).link;
  }

  // ---------------------------------------------------------------- coalescing

  /** What happened in the cluster, whether or not the client got to see it. */
  function Happened(acts: seq<Act>): seq<(Key, Event)> {
    if acts == [] then []
    else if acts[0].About? && acts[0].step.Happen? then [(acts[0].key, acts[0].step.event)] + Happened(acts[1..])
    else Happened(acts[1..])
  }

  lemma LastHappened(acts: seq<Act>, k: Key)
    requires acts != []
    ensures var rest := LastOf(Happened(acts[1..]), k);
            LastOf(Happened(acts), k) ==
            if rest.Some? then rest
            else if acts[0].About? && acts[0].key == k && acts[0].step.Happen? then Some(acts[0].step.event)
            else None
  {
    if acts[0].About? && acts[0].step.Happen? {
      var first, rest := [(acts[0].key, acts[0].step.event)], Happened(acts[1..]);
      ForAppend(first, rest, k);
      assert For(first, k) == if acts[0].key == k then [acts[0].step.event] else [];
    }
  }

  function HeldAt(c: Cloud, k: Key): Option<Doc> {
    At(c, k).link.cell.held
  }

  /** Only what happens to an object changes it: answering questions does not. */
  lemma HeldAfterStep(env: Env, w: Watched, s: Step)
    requires WellQueued(w.link)
    ensures Do(env, w, s).link.cell.held == if s.Happen? then HeldAfter(s.event) else w.link.cell.held
  {
    if s.Pass? { MoveKeepsQueues(env, w.link, s.move); }
  }

  lemma HeldAfterAct(env: Env, c: Cloud, a: Act, k: Key)
    requires TidyAll(env, c)
    ensures HeldAt(Perform(env, c, a), k) ==
            if a.About? && a.key == k && a.step.Happen? then HeldAfter(a.step.event) else HeldAt(c, k)
  {
    PerformAt(env, c, a, k);
    assert Tidy(env, At(c, k));
    if StepAt(c, a, k).Some? { HeldAfterStep(env, At(c, k), StepAt(c, a, k).value); }
  }

  lemma {:induction false} HeldInTheEnd(env: Env, c: Cloud, acts: seq<Act>, k: Key)
    requires CollisionFree(env) && TidyAll(env, c) && ProperActs(env, c, acts)
    ensures var last := LastOf(Happened(acts), k);
            HeldAt(PerformAll(env, c, acts), k) == if last.Some? then HeldAfter(last.value) else HeldAt(c, k)
    decreases acts
  {
    if acts != [] {
      ActStaysTidy(env, c, acts[0]);
      HeldAfterAct(env, c, acts[0], k);
      HeldInTheEnd(env, Perform(env, c, acts[0]), acts[1..], k);
      LastHappened(acts, k);
    }
  }

  /** A finished run whose last handling of every key was safe. */
  ghost predicate SafeRun(env: Env, c: Cloud, acts: seq<Act>) {
    ProperActs(env, c, acts) && Finished(PerformAll(env, c, acts)) && forall k: Key ::
        SafeAtLast(env, c, acts, k, SafeNow(env, c, k))
  }

  /**
   However events are overridden, delayed and interleaved with messages, and with all kinds of events: two
   safe runs in which the same happened last to every key leave the same server store, up to versions.
   */
  lemma CoalescingOverTheLink(env: Env, c: Cloud, a: seq<Act>, b: seq<Act>)
    requires CollisionFree(env) && TidyAll(env, c) && SafeRun(env, c, a) && SafeRun(env, c, b)
    requires SameLast(Happened(a), Happened(b))
    ensures SameContents(PerformAll(env, c, a).world.server, PerformAll(env, c, b).world.server)
  {
    forall k: Key
      ensures Content(Get(PerformAll(env, c, a).world.server, k)) == Content(Get(PerformAll(env, c, b).world.server, k))
    {
      KeyIsReplicatedIff(env, c, a, k);
      KeyIsReplicatedIff(env, c, b, k);
      HeldInTheEnd(env, c, a, k);
      HeldInTheEnd(env, c, b, k);
      assert LastOf(Happened(a), k) == LastOf(Happened(b), k);
      assert SafeAtLast(env, c, a, k, SafeNow(env, c, k)) && SafeAtLast(env, c, b, k, SafeNow(env, c, k));
    }
  }

  // ---------------------------------------------------------------- what the client can see

  /** No deletion is handled or sent for the key, and it is not reconciled while it is away or too deep. */
  predicate GentleAct(c: Cloud, a: Act, k: Key) {
    a.About? && a.key == k ==> Gentle(At(c, k), a.step) && (a.step.Reconcile? ==> k in c.world.cluster)
  }

  predicate GentleActs(env: Env, c: Cloud, acts: seq<Act>, k: Key)
    decreases acts
  {
    acts == [] || (GentleAct(c, acts[0], k) && GentleActs(env, Perform(env, c, acts[0]), acts[1..], k))
  }

  /** Handling the last waiting event sends a message, as reconciling does. */
  predicate SentAfter(env: Env, w: Watched, s: Step, sent: bool) {
    if s.Handle? && |w.pending| == 1 then ClientEvent(env, w.link.cell.shadow, w.pending[0]).message.Some?
    else (s.Reconcile? && w.pending == []) || sent
  }

  predicate SentAfterAct(env: Env, c: Cloud, a: Act, k: Key, sent: bool) {
    var s := StepAt(c, a, k);
    if s.Some? then SentAfter(env, At(c, k), s.value, sent) else sent
  }

  predicate SentAtLast(env: Env, c: Cloud, acts: seq<Act>, k: Key, sent: bool)
    decreases acts
  {
    if acts == [] then sent
    else SentAtLast(env, Perform(env, c, acts[0]), acts[1..], k, SentAfterAct(env, c, acts[0], k, sent))
  }

  lemma SentIsSafeStep(env: Env, w: Watched, s: Step, sent: bool, safe: bool)
    requires Tidy(env, w) && NeverLacking(env, w) && Gentle(w, s) && (s.Reconcile? ==> w.link.cell.held.Some?)
    requires sent ==> safe
    ensures SentAfter(env, w, s, sent) ==> SafeAfter(env, w, s, safe)
  {
    var y := Arrived(env, w.link);
    AheadShape(env, w.link, |w.link.up|);
    if s.Handle? && |w.pending| == 1 {
      AskingIsSafe(env, y, w.pending[0]);
    } else if s.Reconcile? {
      AskingRepairIsSafe(env, y, s.repair, s.depth);
    }
  }

  lemma {:induction false} SentIsSafe(env: Env, c: Cloud, acts: seq<Act>, k: Key, sent: bool, safe: bool)
    requires CollisionFree(env) && TidyAll(env, c) && ProperActs(env, c, acts)
    requires NeverLacking(env, At(c, k)) && GentleActs(env, c, acts, k) && (sent ==> safe)
    ensures SentAtLast(env, c, acts, k, sent) ==> SafeAtLast(env, c, acts, k, safe)
    decreases acts
  {
    if acts != [] {
      var a := acts[0];
      var w, s := At(c, k), StepAt(c, a, k);
      assert Tidy(env, w);
      PerformAt(env, c, a, k);
      ActStaysTidy(env, c, a);
      if s.Some? {
        SentIsSafeStep(env, w, s.value, sent, safe);
        StepNeverLacks(env, w, s.value);
      }
      SentIsSafe(env, Perform(env, c, a), acts[1..], k,
                 SentAfterAct(env, c, a, k, sent), SafeAfterAct(env, c, a, k, safe));
    }
  }

  /** A finished run in which, for every key, nothing is deleted and the last event is not a skipped change. */
  ghost predicate Forthcoming(env: Env, c: Cloud, acts: seq<Act>) {
    && ProperActs(env, c, acts) && Finished(PerformAll(env, c, acts))
    && forall k: Key :: GentleActs(env, c, acts, k) && SentAtLast(env, c, acts, k, SafeNow(env, c, k))
  }

  /** Nothing that the server lacks has been sent, and questions about it ask for a copy. */
  ghost predicate NothingLacking(env: Env, c: Cloud) {
    forall k: Key :: NeverLacking(env, At(c, k))
  }

  lemma ForthcomingIsSafe(env: Env, c: Cloud, acts: seq<Act>)
    requires CollisionFree(env) && TidyAll(env, c) && NothingLacking(env, c) && Forthcoming(env, c, acts)
    ensures SafeRun(env, c, acts)
  {
    forall k: Key ensures SafeAtLast(env, c, acts, k, SafeNow(env, c, k)) {
      assert NeverLacking(env, At(c, k)) && GentleActs(env, c, acts, k);
      SentIsSafe(env, c, acts, k, SafeNow(env, c, k), SafeNow(env, c, k));
    }
  }

  /**
   With conditions that the client sees: if it handles and sends no deletion and sends something for the last
   event of every key, then however events are overridden and delayed and exchanges overlap, two runs in which
   the same happened last leave the same server store, and it is the cluster's, up to versions.
   */
  lemma CoalescingOfSentChanges(env: Env, c: Cloud, a: seq<Act>, b: seq<Act>)
    requires CollisionFree(env) && TidyAll(env, c) && NothingLacking(env, c)
    requires Forthcoming(env, c, a) && Forthcoming(env, c, b) && SameLast(Happened(a), Happened(b))
    ensures SameContents(PerformAll(env, c, a).world.server, PerformAll(env, c, b).world.server)
    ensures SameContents(PerformAll(env, c, a).world.server, PerformAll(env, c, a).world.cluster)
  {
    ForthcomingIsSafe(env, c, a);
    ForthcomingIsSafe(env, c, b);
    CoalescingOverTheLink(env, c, a, b);
    var w := PerformAll(env, c, a).world;
    forall k: Key ensures Content(Get(w.server, k)) == Content(Get(w.cluster, k)) {
      KeyIsReplicatedIff(env, c, a, k);
      assert SafeAtLast(env, c, a, k, SafeNow(env, c, k));
    }
  }

  // ---------------------------------------------------------------- reconciliation

  /** The one action of a key in a reconciliation is a step of these runs, if the listing is the cluster. */
  lemma ActionIsRepair(env: Env, w: World, listing: map<Key, Reconciliation.Listed>, versions: map<Key, int>, k: Key)
    requires k in listing <==> k in w.cluster
    requires k in listing ==> listing[k].doc == w.cluster[k]
    ensures Reconciliation.ActionFor(env, listing, versions, k) ==
            if k in versions && k !in w.cluster then RepairMessage(env, Get(w.cluster, k), Remove)
            else if k in versions && ToResourceVersion(RawVersion(w.cluster[k])) != versions[k] then
              RepairMessage(env, Get(w.cluster, k), Replace)
            else if k !in versions && k in w.cluster && !listing[k].filtered then
              RepairMessage(env, Get(w.cluster, k), Verify)
            else None
  {
  }

  // ---------------------------------------------------------------- the cooldown queue

  /** What the open queue holds for a key is what waits for the key in these runs: a later event overrides. */
  lemma QueueOverrides(env: Env, q: Cooldown.Queue, w: Watched, k: Key, e: Event)
    requires !q.closed && w.pending == ToSeq(Get(q.seen, k))
    ensures var w' := Do(env, Do(env, w, Happen(e)), Override(0));
            w'.pending == ToSeq(Get(Cooldown.Apply(q, Cooldown.Enqueue(k, e)).seen, k))
  {
    assert ToSeq(Some(e)) == [e];
    if w.pending == [] {
      assert w.pending + [e] == [e];
    } else {
      var both := w.pending + [e];
      assert both[..0] + both[1..] == [e];
    }
  }
}
