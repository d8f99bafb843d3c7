/**
 The client's events and the server's handling interleaved in any way over an ordered link that loses
 nothing. The shadow is then exactly what the server will store once everything in flight has
 arrived, so no patch is ever refused.
 */
module ShadowPrediction {
  import opened Options
  import opened JsonMerge
  import opened Versions
  import opened Protocol
  import opened Exchange
  import opened World
  import opened Histories

  // ---------------------------------------------------------------- one key

  /** The client's shadow, the messages on their way, the server's object and its answers. */
  datatype Pipe = Pipe(shadow: Option<Doc>, queue: seq<Body>, stored: Option<Doc>, answers: seq<Body>)

  function Announce(env: Env, p: Pipe, e: Event): Pipe {
    var s := ClientEvent(env, p.shadow, e);
    p.(shadow := s.shadow, queue := p.queue + ToSeq(s.message))
  }

  function Receive(env: Env, p: Pipe): Pipe
    requires p.queue != []
  {
    var o := ServerStep(env, p.stored, p.queue[0]);
    p.(queue := p.queue[1..], stored := o.stored, answers := p.answers + ToSeq(o.reply))
  }

  /** What the server will store after the queue. */
  function Predicted(env: Env, stored: Option<Doc>, queue: seq<Body>): Option<Doc>
    decreases queue
  {
    if queue == [] then stored else Predicted(env, ServerStep(env, stored, queue[0]).stored, queue[1..])
  }

  /** The server will not answer anything in the queue. */
  predicate Silent(env: Env, stored: Option<Doc>, queue: seq<Body>)
    decreases queue
  {
    queue == [] ||
    (ServerStep(env, stored, queue[0]).reply.None? && Silent(env, ServerStep(env, stored, queue[0]).stored, queue[1..]))
  }

  lemma {:induction false} PredictedAppend(env: Env, stored: Option<Doc>, queue: seq<Body>, b: Body)
    ensures Predicted(env, stored, queue + [b]) == ServerStep(env, Predicted(env, stored, queue), b).stored
    ensures Silent(env, stored, queue + [b]) <==>
            Silent(env, stored, queue) && ServerStep(env, Predicted(env, stored, queue), b).reply.None?
    decreases queue
  {
    if queue == [] {
      assert (queue + [b])[1..] == [];
    } else {
      assert (queue + [b])[1..] == queue[1..] + [b];
      PredictedAppend(env, ServerStep(env, stored, queue[0]).stored, queue[1..], b);
    }
  }

  /** The server will store the object last announced, or an older one that differs only in the version. */
  predicate Reflects(stored: Option<Doc>, seen: Option<Doc>) {
    stored.Some? ==>
      && seen.Some? && SameUpToVersion(stored.value, seen.value)
      && (stored == seen || StringValueBigger(RawVersion(seen.value), RawVersion(stored.value)))
  }

  predicate Prediction(env: Env, p: Pipe, seen: Option<Doc>) {
    var predicted := Predicted(env, p.stored, p.queue);
    && p.answers == [] && Silent(env, p.stored, p.queue)
    && Agree(env, p.shadow, predicted) && Reflects(predicted, seen)
  }

  /**
   A change with a name and no second version inside, whose nulls, if it has any, a diff against the shadow
   carries.
   */
  predicate Carried(env: Env, shadow: Option<Doc>, e: Event) {
    e.Modified? ==>
      && Named(e.doc) && PlainVersion(e.doc)
      && (env.strategy.Patch? && shadow.Some? ==> Diffable(shadow.value, e.doc))
  }

  /** Versions grow, and each change is carried against the shadow that the events before it leave. */
  predicate CarriedAll(env: Env, shadow: Option<Doc>, seen: Option<Doc>, events: seq<Event>)
    decreases events
  {
    events == [] ||
    (var e := events[0];
     && Carried(env, shadow, e) && Follows(seen, e)
     && CarriedAll(env, ClientEvent(env, shadow, e).shadow, SeenAfter(seen, e), events[1..]))
  }

  /** Histories of objects without nulls are of this kind. */
  lemma {:induction false} GrowingIsCarried(env: Env, shadow: Option<Doc>, seen: Option<Doc>, events: seq<Event>)
    requires Growing(env, seen, events)
    ensures CarriedAll(env, shadow, seen, events)
    decreases events
  {
    if events != [] {
      if events[0].Modified? && shadow.Some? { NullFreeIsDiffable(shadow.value, events[0].doc); }
      GrowingIsCarried(env, ClientEvent(env, shadow, events[0]).shadow, SeenAfter(seen, events[0]), events[1..]);
    }
  }

  ghost predicate CarriedLog(env: Env, shadow: map<Key, Doc>, seen: map<Key, Doc>, log: seq<(Key, Event)>) {
    forall k: Key :: CarriedAll(env, Get(shadow, k), Get(seen, k), For(log, k))
  }

  lemma EventKeepsPrediction(env: Env, p: Pipe, e: Event, seen: Option<Doc>)
    requires Prediction(env, p, seen)
    requires !e.Added? && Carried(env, p.shadow, e) && Follows(seen, e)
    ensures Prediction(env, Announce(env, p, e), SeenAfter(seen, e))
    ensures var p' := Announce(env, p, e);
            Content(Predicted(env, p'.stored, p'.queue)) == Content(HeldAfter(e))
  {
    var s := ClientEvent(env, p.shadow, e);
    var predicted := Predicted(env, p.stored, p.queue);
    if s.message.None? {
      SkippedPatchIsOnlyVersion(p.shadow.value, e.doc);
      OnlyVersionPatchKeepsContent(p.shadow.value, e.doc);
      assert p.queue + [] == p.queue;
    } else {
      PredictedAppend(env, p.stored, p.queue, s.message.value);
      if e.Modified? {
        NewerIsSaved(env, predicted, e.doc);
        if env.strategy.Patch? && p.shadow.Some? {
          MergeOfDiff(p.shadow.value, e.doc);
        }
      }
    }
  }

  /** The prediction survives a patch exactly when the diff carries every null of the new object. */
  lemma PredictionSurvivesIffDiffable(env: Env, p: Pipe, d: Doc, seen: Option<Doc>)
    requires env.strategy.Patch? && p.shadow.Some? && Prediction(env, p, seen)
    requires Newer(d, p.shadow) && !EmptyPatch(Diff(p.shadow.value, d))
    ensures var p' := Announce(env, p, Modified(d));
            && Silent(env, p'.stored, p'.queue)
            && (Agree(env, p'.shadow, Predicted(env, p'.stored, p'.queue)) <==> Diffable(p.shadow.value, d))
  {
    var base := p.shadow.value;
    PredictedAppend(env, p.stored, p.queue, ClientEvent(env, p.shadow, Modified(d)).message.value);
    MergeOfDiff(base, d);
    AppliedPatch(base, d);
    NewerIsSaved(env, p.shadow, Merge(base, Diff(base, d)));
  }

  lemma ReceiveKeepsPrediction(env: Env, p: Pipe, seen: Option<Doc>)
    requires Prediction(env, p, seen) && p.queue != []
    ensures Prediction(env, Receive(env, p), seen)
    ensures var p' := Receive(env, p);
            Predicted(env, p'.stored, p'.queue) == Predicted(env, p.stored, p.queue)
  {
  }

  // ---------------------------------------------------------------- all keys

  datatype Link = Link(shadow: map<Key, Doc>, queue: seq<(Key, Body)>, server: map<Key, Doc>, answers: seq<(Key, Body)>)

  /** An event happens on the client side, or the oldest message on the link arrives. */
  datatype Step = Happen(key: Key, event: Event) | Arrive

  function Do(env: Env, l: Link, s: Step): Link {
    match s
    case Happen(k, e) =>
      var o := ClientEvent(env, Get(l.shadow, k), e);
      l.(shadow := Put(l.shadow, k, o.shadow), queue := l.queue + Tag(k, o.message))
    case Arrive =>
      if l.queue == [] then l
      else
        var (k, b) := l.queue[0];
        var o := ServerStep(env, Get(l.server, k), b);
        l.(queue := l.queue[1..], server := Put(l.server, k, o.stored), answers := l.answers + Tag(k, o.reply))
  }

  function Play(env: Env, l: Link, steps: seq<Step>): Link
    decreases steps
  {
    if steps == [] then l else Play(env, Do(env, l, steps[0]), steps[1..])
  }

  function EventsOf(steps: seq<Step>): seq<(Key, Event)> {
    if steps == [] then []
    else if steps[0].Happen? then [(steps[0].key, steps[0].event)] + EventsOf(steps[1..])
    else EventsOf(steps[1..])
  }

  predicate NoAdded(steps: seq<Step>) {
    forall i | 0 <= i < |steps| :: steps[i].Happen? ==> !steps[i].event.Added?
  }

  function PipeAt(l: Link, k: Key): Pipe {
    Pipe(Get(l.shadow, k), For(l.queue, k), Get(l.server, k), For(l.answers, k))
  }

  /** A step of the whole link is a step of the one pipe it concerns, and no step of the others. */
  lemma DoAt(env: Env, l: Link, s: Step, k: Key)
    ensures s.Happen? ==>
              PipeAt(Do(env, l, s), k) == if s.key == k then Announce(env, PipeAt(l, k), s.event) else PipeAt(l, k)
    ensures s.Arrive? && l.queue != [] && l.queue[0].0 == k ==>
              PipeAt(l, k).queue != [] && PipeAt(Do(env, l, s), k) == Receive(env, PipeAt(l, k))
    ensures s.Arrive? && (l.queue == [] || l.queue[0].0 != k) ==> PipeAt(Do(env, l, s), k) == PipeAt(l, k)
  {
    match s
    case Happen(j, e) =>
      var o := ClientEvent(env, Get(l.shadow, j), e);
      ForAppend(l.queue, Tag(j, o.message), k);
      GetAfterPut(l.shadow, j, o.shadow, k);
      assert For(Tag(j, o.message), k) == if j == k then ToSeq(o.message) else [];
    case Arrive =>
      if l.queue != [] {
        var (j, b) := l.queue[0];
        var o := ServerStep(env, Get(l.server, j), b);
        ForAppend(l.answers, Tag(j, o.reply), k);
        GetAfterPut(l.server, j, o.stored, k);
        assert For(Tag(j, o.reply), k) == if j == k then ToSeq(o.reply) else [];
        if j == k {
          assert For(l.queue, k)[1..] == For(l.queue[1..], k);
        }
      }
  }

  function SeenAfterAll(seen: Option<Doc>, events: seq<Event>): Option<Doc>
    decreases events
  {
    if events == [] then seen else SeenAfterAll(SeenAfter(seen, events[0]), events[1..])
  }

  /** What the prediction says about one key once the steps are done. */
  lemma {:induction false} PlayAt(env: Env, l: Link, steps: seq<Step>, k: Key, seen: Option<Doc>)
    requires Prediction(env, PipeAt(l, k), seen)
    requires NoAdded(steps) && CarriedAll(env, Get(l.shadow, k), seen, For(EventsOf(steps), k))
    ensures var p, p' := PipeAt(l, k), PipeAt(Play(env, l, steps), k);
            var events := For(EventsOf(steps), k);
            && Prediction(env, p', SeenAfterAll(seen, events))
            && Content(Predicted(env, p'.stored, p'.queue)) ==
               (if events == [] then Content(Predicted(env, p.stored, p.queue))
                else Content(HeldAfter(events[|events| - 1])))
    decreases steps
  {
    if steps != [] {
      var s, rest := steps[0], steps[1..];
      var l' := Do(env, l, s);
      DoAt(env, l, s, k);
      assert NoAdded(rest);
      if s.Happen? && s.key == k {
        EventKeepsPrediction(env, PipeAt(l, k), s.event, seen);
        assert For(EventsOf(steps), k)[1..] == For(EventsOf(rest), k);
        PlayAt(env, l', rest, k, SeenAfter(seen, s.event));
      } else {
        if s.Happen? { assert EventsOf(steps)[1..] == EventsOf(rest); }
        assert For(EventsOf(steps), k) == For(EventsOf(rest), k);
        if s.Arrive? && l.queue != [] && l.queue[0].0 == k {
          ReceiveKeepsPrediction(env, PipeAt(l, k), seen);
        }
        PlayAt(env, l', rest, k, seen);
      }
    }
  }

  /** Nothing in flight, and every shadow is what the server stores. */
  ghost predicate Quiet(env: Env, l: Link, seen: map<Key, Doc>) {
    && l.queue == [] && l.answers == []
    && forall k: Key :: Agree(env, Get(l.shadow, k), Get(l.server, k)) && Reflects(Get(l.server, k), Get(seen, k))
  }

  /**
   In every interleaving of changes, deletions and arrivals: the server never asks for anything, it
   will accept everything in flight, and every shadow is what the server will then store.
   */
  lemma ShadowPredictsServer(env: Env, l: Link, steps: seq<Step>, seen: map<Key, Doc>)
    requires Quiet(env, l, seen) && NoAdded(steps) && CarriedLog(env, l.shadow, seen, EventsOf(steps))
    ensures var l' := Play(env, l, steps);
            && l'.answers == []
            && forall k: Key ::
                 && Silent(env, Get(l'.server, k), For(l'.queue, k))
                 && Agree(env, Get(l'.shadow, k), Predicted(env, Get(l'.server, k), For(l'.queue, k)))
  {
    var l' := Play(env, l, steps);
    forall k: Key
      ensures For(l'.answers, k) == []
      ensures Silent(env, Get(l'.server, k), For(l'.queue, k))
      ensures Agree(env, Get(l'.shadow, k), Predicted(env, Get(l'.server, k), For(l'.queue, k)))
    {
      assert Prediction(env, PipeAt(l, k), Get(seen, k));
      assert CarriedAll(env, Get(l.shadow, k), Get(seen, k), For(EventsOf(steps), k));
      PlayAt(env, l, steps, k, Get(seen, k));
    }
    assert l'.answers != [] ==> For(l'.answers, l'.answers[0].0) != [];
  }

  /** Once drained, each key holds what its last event said, or what it held before if it had none. */
  lemma DrainedLinkReflectsLastEvents(env: Env, l: Link, steps: seq<Step>, seen: map<Key, Doc>, k: Key)
    requires Quiet(env, l, seen) && NoAdded(steps) && CarriedLog(env, l.shadow, seen, EventsOf(steps))
    requires Play(env, l, steps).queue == []
    ensures var last := LastOf(EventsOf(steps), k);
            Content(Get(Play(env, l, steps).server, k)) ==
            if last.None? then Content(Get(l.server, k)) else Content(HeldAfter(last.value))
  {
    assert Prediction(env, PipeAt(l, k), Get(seen, k));
    PlayAt(env, l, steps, k, Get(seen, k));
  }
}
