/**
 What the server ends up with after a history of events whose exchanges run to their end one after the other.
 The cluster may be ahead of the event that is handled, so questions are answered from a later object.
 Then only the last event of each key matters, as long as no change is older than the shadow it is sent against.
 */
module Coalescing {
  import opened Options
  import opened JsonMerge
  import opened Versions
  import opened Protocol
  import opened Exchange
  import opened World
  import opened Histories

  /** An event is handled, and its exchange runs, while the cluster holds this object. */
  datatype Handling = Handling(live: Option<Doc>, event: Event)

  function SettleOne(env: Env, c: Cell, h: Handling): Cell {
    Settle(env, c.(held := h.live), h.event).0
  }

  function SettleAll(env: Env, c: Cell, steps: seq<Handling>): Cell
    decreases steps
  {
    if steps == [] then c else SettleAll(env, SettleOne(env, c, steps[0]), steps[1..])
  }

  // ---------------------------------------------------------------- one event

  /** What the client can check before it sends: the change is skipped, or it is not older than the shadow. */
  predicate Fresh(env: Env, shadow: Option<Doc>, e: Event) {
    env.strategy.Patch? && e.Modified? && shadow.Some? ==>
      NoNewer(shadow.value, e.doc) || EmptyPatch(Diff(shadow.value, e.doc))
  }

  /**
   What the server stores is no newer than the cluster's object and, while the client has no shadow, than the
   event's.
   */
  predicate Behind(env: Env, c: Cell, e: Event) {
    && (c.held.Some? ==> Regular(c.held.value) && (c.stored.Some? ==> NoNewer(c.stored.value, c.held.value)))
    && (env.strategy.Patch? && c.shadow.None? && c.stored.Some? && e.Modified? ==> NoNewer(c.stored.value, e.doc))
  }

  /** Both sides agree again; unless it is a deletion, what is stored was there, was announced or is the cluster's. */
  predicate Settled(env: Env, c: Cell, e: Event, c': Cell) {
    && c'.held == c.held && Agree(env, c'.shadow, c'.stored)
    && (c'.stored.Some? ==> c'.stored == c.stored || c'.stored == c.held || c'.stored == HeldAfter(e))
    && (env.strategy.Patch? && c'.shadow.None? && c'.stored.Some? ==> c.shadow.None? && c'.stored == c.stored)
    && (c.held == HeldAfter(e) ==> Content(c'.stored) == Content(c.held))
  }

  lemma SettledChange(env: Env, c: Cell, d: Doc)
    requires CollisionFree(env) && Agree(env, c.shadow, c.stored) && Regular(d)
    requires Behind(env, c, Modified(d)) && Fresh(env, c.shadow, Modified(d))
    ensures Settled(env, c, Modified(d), Settle(env, c, Modified(d)).0)
  {
    var s := PutOrPatch(env, c.shadow, None, d);
    SentLeadsTo(env, c.shadow, None, d);
    if s.message.Some? {
      ServerTakesOrAsks(env, c.stored, s.message.value, d);
      assert ServerStep(env, c.stored, s.message.value).reply.None? by {
        if s.message.value.PatchObject? { AppliedPatch(c.shadow.value, d); }
      }
    }
  }

  lemma SettledAddition(env: Env, c: Cell, d: Doc)
    requires CollisionFree(env) && Agree(env, c.shadow, c.stored) && RegularEvent(env, Added(d))
    requires Behind(env, c, Added(d))
    ensures Settled(env, c, Added(d), Settle(env, c, Added(d)).0)
  {
    var first := Hop(true, 1, NewChecksum(env.hash(d)));
    var get := Hop(false, 2, GetObject(c.stored));
    assert Settle(env, c, Added(d)) == Run(env, c, first);
    if c.stored.None? || env.hash(c.stored.value) != env.hash(d) {
      assert Deliver(env, c, first) == (c, Some(get));
      if c.held.Some? {
        var h := c.held.value;
        var s := PutOrPatch(env, c.shadow, c.stored, h);
        var c1 := c.(shadow := s.shadow);
        SentLeadsTo(env, c.shadow, c.stored, h);
        assert Deliver(env, c, get) == (c1, Reply(get, s.message));
        if s.message.Some? {
          var answer := Hop(true, 3, s.message.value);
          ServerTakesOrAsks(env, c.stored, s.message.value, h);
          assert ServerStep(env, c.stored, s.message.value).reply.None? by {
            if s.message.value.PatchObject? { AppliedPatch(c.stored.value, h); }
          }
          assert Run(env, c1, answer).0 == c1.(stored := Some(h));
        }
      }
    }
  }

  lemma SettledEvent(env: Env, c: Cell, e: Event)
    requires CollisionFree(env) && Agree(env, c.shadow, c.stored) && RegularEvent(env, e)
    requires Behind(env, c, e) && Fresh(env, c.shadow, e)
    ensures Settled(env, c, e, Settle(env, c, e).0)
  {
    match e
    case Deleted =>
    case Modified(d) => SettledChange(env, c, d);
    case Added(d) => SettledAddition(env, c, d);
  }

  // ---------------------------------------------------------------- a stale change

  predicate Numbered(d: Doc) {
    RawVersion(d) != "" && AllDigits(RawVersion(d))
  }

  /** A diff between two versions with the same content is skipped. */
  lemma SameContentIsSkipped(base: Doc, next: Doc)
    requires Named(next) && Numbered(next) && SameUpToVersion(base, next) && RawVersion(base) != RawVersion(next)
    ensures EmptyPatch(Diff(base, next))
  {
    DiffOfSameContent(base, next);
    var a, b, d := base[METADATA], next[METADATA], Diff(base, next);
    assert DiffAt(a, b, VERSION) == Some(b.fields[VERSION]);
    assert VERSION in DiffObj(a, b) && DiffObj(a, b).Keys == {VERSION};
    assert DiffAt(Obj(base), Obj(next), METADATA) == Some(Obj(DiffObj(a, b)));
    assert d.Keys == {METADATA} by { assert METADATA in d; }
    assert OnlyVersion(d);
  }

  /** Sent against a newer shadow, an older change moves the shadow and not the server. */
  lemma StaleChange(env: Env, c: Cell, b: Doc, d: Doc)
    requires env.strategy.Patch? && c.shadow == Some(b) && c.stored == Some(b) && env.readable(b) && env.readable(d)
    requires Regular(d) && !Fresh(env, c.shadow, Modified(d))
    ensures Settle(env, c, Modified(d)).0 == c.(shadow := Some(d))
  {
    AppliedPatch(b, d);
    var patch := PatchObject(env.hash(d), Diff(b, d));
    assert ClientEvent(env, c.shadow, Modified(d)) == Sent(Some(d), Some(patch));
    assert ServerStep(env, c.stored, patch) == ServerOut(c.stored, None, false);
  }

  /**
   The condition is exact: where both sides agree, the next version with the same content still gets to the
   server after the change d was handled, if and only if d was fresh.
   */
  lemma FreshnessIsExact(env: Env, c: Cell, live: Option<Doc>, d: Doc, next: Doc)
    requires CollisionFree(env) && env.strategy.Patch? && c.shadow.Some? && c.stored == c.shadow
    requires env.readable(c.shadow.value) && env.readable(d) && Behind(env, c.(held := live), Modified(d))
    requires Regular(d) && Numbered(d) && Regular(next) && Numbered(next) && SameUpToVersion(d, next)
    requires StringValueBigger(RawVersion(next), RawVersion(d)) && NoNewer(c.stored.value, next)
    requires live.Some? ==> NoNewer(live.value, next)
    ensures var c' := SettleAll(env, c, [Handling(live, Modified(d)), Handling(Some(next), Modified(next))]);
            Content(c'.stored) == Content(Some(next)) <==> Fresh(env, c.shadow, Modified(d))
  {
    var b := c.shadow.value;
    var c1 := SettleOne(env, c, Handling(live, Modified(d)));
    var c2 := SettleOne(env, c1, Handling(Some(next), Modified(next)));
    TwoSettled(env, c, Handling(live, Modified(d)), Handling(Some(next), Modified(next)));
    if Fresh(env, c.shadow, Modified(d)) {
      SettledEvent(env, c.(held := live), Modified(d));
      SettledEvent(env, c1.(held := Some(next)), Modified(next));
    } else {
      StaleChange(env, c.(held := live), b, d);
      SameContentIsSkipped(d, next);
      assert c2.stored == Some(b);
      if SameUpToVersion(b, d) && RawVersion(b) != RawVersion(d) { SameContentIsSkipped(b, d); }
      if SameUpToVersion(b, d) && RawVersion(b) == RawVersion(d) { SameVersionSameContent(b, d); }
    }
  }

  lemma SameVersionSameContent(b: Doc, d: Doc)
    requires Named(d) && Numbered(d) && SameUpToVersion(b, d) && RawVersion(b) == RawVersion(d)
    ensures b == d
  {
    DiffOfSameContent(b, d);
    assert EraseVersion(b)[METADATA] == EraseVersion(d)[METADATA];
    var m, n := b[METADATA].fields, d[METADATA].fields;
    assert m == (m - {VERSION})[VERSION := m[VERSION]] && n == (n - {VERSION})[VERSION := n[VERSION]];
    assert m == n;
    forall k ensures Get(b, k) == Get(d, k) {
      assert Get(EraseVersion(b), k) == Get(EraseVersion(d), k);
    }
    SameLookups(b, d);
  }

  lemma TwoSettled(env: Env, c: Cell, a: Handling, b: Handling)
    ensures SettleAll(env, c, [a, b]) == SettleOne(env, SettleOne(env, c, a), b)
  {
    assert [a, b][1..] == [b] && [b][1..] == [];
    assert SettleAll(env, SettleOne(env, c, a), [b]) == SettleAll(env, SettleOne(env, SettleOne(env, c, a), b), []);
  }

  /** An object seen again, whose question is answered from a later one, before an older change and a last one. */
  function AnsweredAhead(first: Doc, late: Doc, ahead: Doc, last: Doc): seq<Handling> {
    [Handling(Some(ahead), Added(first)), Handling(Some(ahead), Modified(late)), Handling(Some(last), Modified(last))]
  }

  /**
   Without it the cluster's content can be lost with no deletion and no overlap: the question about the first
   object is answered from a later one, the older change that still waits moves the shadow back, and the
   last change, equal to the older one up to the version, is skipped.
   */
  lemma OlderChangeLosesContent(env: Env, o: Doc, first: Doc, late: Doc, ahead: Doc, last: Doc)
    requires CollisionFree(env) && env.strategy.Patch? && env.readable(late) && env.readable(ahead)
    requires Regular(first) && HonestChecksum(env, first) && Regular(late) && Regular(ahead) && Regular(last)
    requires Numbered(last)
    requires o != first && !SameUpToVersion(o, ahead) && NoNewer(o, ahead)
    requires SameUpToVersion(late, last) && !SameUpToVersion(late, ahead)
    requires StringValueBigger(RawVersion(ahead), RawVersion(late))
    requires StringValueBigger(RawVersion(last), RawVersion(ahead))
    ensures var c := SettleAll(env, Cell(Some(first), None, Some(o)), AnsweredAhead(first, late, ahead, last));
            c.held == Some(last) && c.stored == Some(ahead) && Content(c.stored) != Content(c.held)
  {
    var s := AnsweredAhead(first, late, ahead, last);
    AnsweredFrom(env, o, first, ahead);
    assert s[1..] == [s[1], s[2]];
    StaleThenSkipped(env, late, ahead, last);
  }

  lemma StaleThenSkipped(env: Env, late: Doc, ahead: Doc, last: Doc)
    requires env.strategy.Patch? && env.readable(late) && env.readable(ahead)
    requires Regular(late) && Regular(last) && Numbered(last) && SameUpToVersion(late, last)
    requires !SameUpToVersion(late, ahead)
    requires StringValueBigger(RawVersion(ahead), RawVersion(late))
    requires StringValueBigger(RawVersion(last), RawVersion(ahead))
    ensures SettleAll(env, Cell(Some(ahead), Some(ahead), Some(ahead)),
        [Handling(Some(ahead), Modified(late)), Handling(Some(last), Modified(last))])
            == Cell(Some(last), Some(late), Some(ahead))
  {
    var c := Cell(Some(ahead), Some(ahead), Some(ahead));
    TwoSettled(env, c, Handling(Some(ahead), Modified(late)), Handling(Some(last), Modified(last)));
    SkippedPatchIsOnlyVersion(ahead, late);
    if EmptyPatch(Diff(ahead, late)) { OnlyVersionPatchKeepsContent(ahead, late); }
    StaleChange(env, c, ahead, late);
    SameContentIsSkipped(late, last);
  }

  lemma AnsweredFrom(env: Env, o: Doc, first: Doc, ahead: Doc)
    requires CollisionFree(env) && env.strategy.Patch? && Regular(first) && HonestChecksum(env, first) && Regular(ahead)
    requires o != first && !SameUpToVersion(o, ahead) && NoNewer(o, ahead)
    ensures SettleOne(env, Cell(Some(first), None, Some(o)), Handling(Some(ahead), Added(first)))
        == Cell(Some(ahead), Some(ahead), Some(ahead))
  {
    var c := Cell(Some(ahead), None, Some(o));
    var question := Hop(true, 1, NewChecksum(env.hash(first)));
    assert Settle(env, c, Added(first)) == Run(env, c, question);
    assert Deliver(env, c, question) == (c, Some(Hop(false, 2, GetObject(Some(o)))));
    AnswerToBase(env, c, 2);
  }

  // ---------------------------------------------------------------- histories of one key

  /** Versions in the cluster grow, every event has happened by the time it is handled, and every change is fresh. */
  predicate Valid(env: Env, c: Cell, seen: Option<Doc>, steps: seq<Handling>)
    decreases steps
  {
    steps == [] ||
    (var h := steps[0];
     var now := if h.live.Some? then h.live else seen;
     && (h.live.Some? ==> Regular(h.live.value) && (seen.Some? ==> NoNewer(seen.value, h.live.value)))
     && RegularEvent(env, h.event) && (!h.event.Deleted? ==> now.Some? && NoNewer(h.event.doc, now.value))
     && Fresh(env, c.shadow, h.event)
     && Valid(env, SettleOne(env, c, h), now, steps[1..]))
  }

  /** What was stored before the client had a shadow is older than everything it will handle. */
  predicate Untold(env: Env, c: Cell, steps: seq<Handling>) {
    env.strategy.Patch? && c.shadow.None? && c.stored.Some? ==>
      forall h | h in steps && h.event.Modified? :: NoNewer(c.stored.value, h.event.doc)
  }

  /** Before a history: both sides agree, and nothing stored is newer than what the cluster held last. */
  predicate Consistent(env: Env, c: Cell, seen: Option<Doc>) {
    Agree(env, c.shadow, c.stored) && (c.stored.Some? ==> seen.Some? && NoNewer(c.stored.value, seen.value))
  }

  predicate CaughtUp(steps: seq<Handling>) {
    steps != [] ==> steps[|steps| - 1].live == HeldAfter(steps[|steps| - 1].event)
  }

  /**
   After any history that catches up with the cluster, the server holds what the last event said, up to the
   version.
   */
  lemma {:induction false} LastEventDecides(env: Env, c: Cell, steps: seq<Handling>, seen: Option<Doc>)
    requires CollisionFree(env) && Consistent(env, c, seen) && Untold(env, c, steps) && Valid(env, c, seen, steps)
    ensures var c' := SettleAll(env, c, steps);
            && Agree(env, c'.shadow, c'.stored)
            && (steps == [] ==> c' == c)
            && (steps != [] && CaughtUp(steps) ==> Content(c'.stored) == Content(HeldAfter(steps[|steps| - 1].event)))
    decreases steps
  {
    if steps != [] {
      var h, rest := steps[0], steps[1..];
      assert h in steps && forall g | g in rest :: g in steps;
      SettledEvent(env, c.(held := h.live), h.event);
      var c1 := SettleOne(env, c, h);
      LastEventDecides(env, c1, rest, if h.live.Some? then h.live else seen);
    }
  }

  // ---------------------------------------------------------------- prompt handling

  /** Each event is handled while the cluster still holds what it announced. */
  function Promptly(events: seq<Event>): seq<Handling> {
    seq(|events|, i requires 0 <= i < |events| => Handling(HeldAfter(events[i]), events[i]))
  }

  /** Then every change is fresh, with nothing to check. */
  lemma {:induction false} PromptIsValid(env: Env, c: Cell, seen: Option<Doc>, events: seq<Event>)
    requires CollisionFree(env) && Consistent(env, c, seen) && Growing(env, seen, events)
    ensures Valid(env, c, seen, Promptly(events)) && Untold(env, c, Promptly(events))
    decreases events
  {
    PromptIsUntold(env, c, seen, events);
    if events != [] {
      var e := events[0];
      var h := Handling(HeldAfter(e), e);
      assert Promptly(events)[0] == h && Promptly(events)[1..] == Promptly(events[1..]);
      assert h in Promptly(events);
      SettledEvent(env, c.(held := h.live), e);
      PromptIsValid(env, SettleOne(env, c, h), SeenAfter(seen, e), events[1..]);
    }
  }

  lemma {:induction false} PromptIsUntold(env: Env, c: Cell, seen: Option<Doc>, events: seq<Event>)
    requires Consistent(env, c, seen) && Growing(env, seen, events)
    ensures Untold(env, c, Promptly(events))
  {
    if c.stored.Some? {
      AllNewer(env, c.stored.value, seen, events);
      forall h | h in Promptly(events) && h.event.Modified? ensures NoNewer(c.stored.value, h.event.doc) {
        assert h.event in events;
      }
    }
  }

  lemma {:induction false} AllNewer(env: Env, o: Doc, seen: Option<Doc>, events: seq<Event>)
    requires seen.Some? && NoNewer(o, seen.value) && Growing(env, seen, events)
    ensures forall e | e in events && !e.Deleted? :: NoNewer(o, e.doc)
    decreases events
  {
    if events != [] {
      AllNewer(env, o, SeenAfter(seen, events[0]), events[1..]);
      assert forall e | e in events :: e == events[0] || e in events[1..];
    }
  }

  // ---------------------------------------------------------------- all keys

  function SettleWorld(env: Env, w: World, log: seq<(Key, Handling)>): World
    decreases log
  {
    if log == [] then w
    else
      var (k, h) := log[0];
      SettleWorld(env, SetCell(w, k, SettleOne(env, CellOf(w, k), h)), log[1..])
  }

  /** Seen from one key, the history consists of that key's events alone. */
  lemma {:induction false} SettleWorldAt(env: Env, w: World, log: seq<(Key, Handling)>, k: Key)
    ensures CellOf(SettleWorld(env, w, log), k) == SettleAll(env, CellOf(w, k), For(log, k))
    decreases log
  {
    if log != [] {
      var (j, h) := log[0];
      var w' := SetCell(w, j, SettleOne(env, CellOf(w, j), h));
      CellAfterSet(w, j, SettleOne(env, CellOf(w, j), h), k);
      SettleWorldAt(env, w', log[1..], k);
      if j == k {
        assert For(log, k)[1..] == For(log[1..], k);
      }
    }
  }

  ghost predicate ConsistentWorld(env: Env, w: World, seen: map<Key, Doc>) {
    forall k: Key :: Consistent(env, CellOf(w, k), Get(seen, k))
  }

  /** A valid history of every key that catches up with the cluster. */
  ghost predicate ValidLog(env: Env, w: World, seen: map<Key, Doc>, log: seq<(Key, Handling)>) {
    forall k: Key ::
      Valid(env, CellOf(w, k), Get(seen, k), For(log, k)) && Untold(env, CellOf(w, k), For(log, k))
          && CaughtUp(For(log, k))
  }

  function EventsOf(log: seq<(Key, Handling)>): seq<(Key, Event)> {
    seq(|log|, i requires 0 <= i < |log| => (log[i].0, log[i].1.event))
  }

  lemma {:induction false} EventsFor(log: seq<(Key, Handling)>, k: Key)
    ensures |For(EventsOf(log), k)| == |For(log, k)|
    ensures forall i | 0 <= i < |For(log, k)| :: For(EventsOf(log), k)[i] == For(log, k)[i].event
  {
    if log != [] {
      assert EventsOf(log)[1..] == EventsOf(log[1..]);
      EventsFor(log[1..], k);
    }
  }

  /** Each key ends with what its last event said, or as it was if it had none. */
  lemma WorldReflectsLastEvents(env: Env, w: World, seen: map<Key, Doc>, log: seq<(Key, Handling)>, k: Key)
    requires CollisionFree(env) && ConsistentWorld(env, w, seen) && ValidLog(env, w, seen, log)
    ensures var last := LastOf(EventsOf(log), k);
            Content(Get(SettleWorld(env, w, log).server, k)) ==
            if last.None? then Content(Get(w.server, k)) else Content(HeldAfter(last.value))
  {
    SettleWorldAt(env, w, log, k);
    EventsFor(log, k);
    assert Consistent(env, CellOf(w, k), Get(seen, k));
    assert Valid(env, CellOf(w, k), Get(seen, k), For(log, k));
    LastEventDecides(env, CellOf(w, k), For(log, k), Get(seen, k));
    assert CellOf(SettleWorld(env, w, log), k).stored == Get(SettleWorld(env, w, log).server, k);
  }

  /** Two histories that end alike on every key leave the same server store, up to versions. */
  lemma CoalescingPreservesMeaning(env: Env, w: World, seen: map<Key, Doc>, a: seq<(Key, Handling)>,
      b: seq<(Key, Handling)>)
    requires CollisionFree(env) && ConsistentWorld(env, w, seen)
    requires ValidLog(env, w, seen, a) && ValidLog(env, w, seen, b)
    requires SameLast(EventsOf(a), EventsOf(b))
    ensures SameContents(SettleWorld(env, w, a).server, SettleWorld(env, w, b).server)
  {
    forall k: Key
      ensures Content(Get(SettleWorld(env, w, a).server, k)) == Content(Get(SettleWorld(env, w, b).server, k))
    {
      WorldReflectsLastEvents(env, w, seen, a, k);
      WorldReflectsLastEvents(env, w, seen, b, k);
      assert LastOf(EventsOf(a), k) == LastOf(EventsOf(b), k);
    }
  }
}
