/**
 Whole runs about one key over an ordered link that loses nothing: the cluster changes at any time, events
 wait, are overridden by later ones and are handled late, and questions are answered from what the cluster
 holds at that moment. Every order of deliveries after the last event ends alike, and the state in which
 that event is handled says exactly whether the server then has the cluster's content.
 */
module EventualConsistency {
  import opened Options
  import opened JsonMerge
  import opened Versions
  import opened Protocol
  import opened Exchange
  import opened Histories
  import opened Overlap
  import Coalescing

  // ---------------------------------------------------------------- which questions help

  /**
   The client, holding d, answers this question with something that gets through and makes a difference:
   a copy where the server has nothing; else a message that fits, or one whose refusal can still be answered.
   */
  predicate Cures(env: Env, stored: Option<Doc>, shadow: Option<Doc>, q: Hop, d: Doc)
    requires q.body.GetObject?
  {
    var m := PutOrPatch(env, shadow, q.body.base, d).message;
    && q.depth < MAX_DEPTH && m.Some?
    && (if stored.None? then m.value.PutObject?
        else q.depth <= MAX_DEPTH - 3 || ServerStep(env, stored, m.value).reply.None?)
  }

  /** One of the questions does; the answers before it only move the shadow. */
  predicate Cured(env: Env, stored: Option<Doc>, shadow: Option<Doc>, down: seq<Hop>, d: Doc)
    requires OnlyQuestions(down)
    decreases down
  {
    && down != []
    && (if down[0].depth > MAX_DEPTH then Cured(env, stored, shadow, down[1..], d)
        else
          || Cures(env, stored, shadow, down[0], d)
          || Cured(env, stored, PutOrPatch(env, shadow, down[0].body.base, d).shadow, down[1..], d))
  }

  /** A question that can only be answered too deep helps nobody. */
  lemma {:induction false} DeepQuestion(env: Env, stored: Option<Doc>, shadow: Option<Doc>, down: seq<Hop>, q: Hop,
      d: Doc)
    requires OnlyQuestions(down) && !q.toServer && q.body.GetObject? && q.depth >= MAX_DEPTH
    ensures OnlyQuestions(down + [q])
    ensures Cured(env, stored, shadow, down + [q], d) == Cured(env, stored, shadow, down, d)
    decreases down
  {
    if down == [] {
      assert (down + [q])[1..] == [];
    } else {
      assert (down + [q])[1..] == down[1..] + [q];
      DeepQuestion(env, stored, shadow, down[1..], q, d);
      DeepQuestion(env, stored, PutOrPatch(env, shadow, down[0].body.base, d).shadow, down[1..], q, d);
    }
  }

  /** A question with the server's own base that can be answered always helps. */
  lemma {:induction false} OwnBaseCures(env: Env, o: Doc, shadow: Option<Doc>, down: seq<Hop>, depth: nat, d: Doc)
    requires CollisionFree(env) && OnlyQuestions(down) && depth < MAX_DEPTH && Regular(d) && !SameUpToVersion(o, d)
    ensures OnlyQuestions(down + [Hop(false, depth, GetObject(Some(o)))])
    ensures Cured(env, Some(o), shadow, down + [Hop(false, depth, GetObject(Some(o)))], d)
    decreases down
  {
    var q := Hop(false, depth, GetObject(Some(o)));
    if down == [] {
      SentLeadsTo(env, shadow, Some(o), d);
      AppliedPatch(o, d);
      assert Cures(env, Some(o), shadow, q, d);
    } else {
      assert (down + [q])[1..] == down[1..] + [q];
      OwnBaseCures(env, o, shadow, down[1..], depth, d);
      OwnBaseCures(env, o, PutOrPatch(env, shadow, down[0].body.base, d).shadow, down[1..], depth, d);
    }
  }

  /** With a shadow, no question about a missing object is answered with a copy. */
  lemma {:induction false} NoCopyWithShadow(env: Env, shadow: Option<Doc>, down: seq<Hop>, d: Doc)
    requires env.strategy.Patch? && shadow.Some? && OnlyQuestions(down)
    ensures !Cured(env, None, shadow, down, d)
    decreases down
  {
    if down != [] {
      NoCopyWithShadow(env, shadow, down[1..], d);
      NoCopyWithShadow(env, PutOrPatch(env, shadow, down[0].body.base, d).shadow, down[1..], d);
    }
  }

  // ---------------------------------------------------------------- where deliveries lead

  /**
   For a state in which every report has arrived: the server has the cluster's content, or a question on
   its way down will see to it.
   */
  predicate Reaches(env: Env, y: Duplex)
    requires OnlyQuestions(y.down)
  {
    || Content(y.cell.stored) == Content(y.cell.held)
    || (y.cell.held.Some? && Cured(env, y.cell.stored, y.cell.shadow, y.down, y.cell.held.value))
  }

  /** Nothing on the server is newer than the cluster's object. */
  predicate NotAhead(y: Duplex) {
    y.cell.held.Some? ==>
      && Regular(y.cell.held.value)
      && (y.cell.stored.Some? ==> NoNewer(y.cell.stored.value, y.cell.held.value))
  }

  /** The server's side of one round, for an answer that brings d. */
  lemma AnswerArrives(env: Env, y: Duplex, shadow: Option<Doc>, q: Hop, d: Doc)
    requires CollisionFree(env) && WellQueued(y) && NotAhead(y) && y.cell.held == Some(d) && y.cell.shadow == shadow
    requires y.up == [q] && q.depth <= MAX_DEPTH && q.depth > 0 && Brings(env, q.body, d)
    requires env.strategy.Patch? || q.body.PutObject?
    requires q.body.PatchObject? && y.cell.stored.None? ==> shadow.Some?
    ensures var o := ServerStep(env, y.cell.stored, q.body);
            var z := Go(env, y, Up);
            && OnlyQuestions(z.down) && NotAhead(z) && z.up == []
            && (Reaches(env, z) <==>
                  || Content(y.cell.stored) == Content(Some(d))
                  || (if y.cell.stored.None? then q.body.PutObject? else q.depth <= MAX_DEPTH - 2 || o.reply.None?)
                  || Cured(env, y.cell.stored, shadow, y.down, d))
  {
    ServerTakesOrAsks(env, y.cell.stored, q.body, d);
    var o, z := ServerStep(env, y.cell.stored, q.body), Go(env, y, Up);
    if o.reply.None? {
      assert z.cell.stored == Some(d);
    } else {
      var r := Hop(false, q.depth + 1, GetObject(y.cell.stored));
      assert z.down == y.down + [r];
      if y.cell.stored.None? {
        NoCopyWithShadow(env, shadow, y.down, d);
        NoCopyWithShadow(env, shadow, z.down, d);
      } else if r.depth >= MAX_DEPTH {
        DeepQuestion(env, y.cell.stored, shadow, y.down, r, d);
      } else if !SameUpToVersion(y.cell.stored.value, d) {
        OwnBaseCures(env, y.cell.stored.value, shadow, y.down, r.depth, d);
      }
    }
  }

  /** The client answers the oldest question and the answer arrives: where this leads stays the same. */
  lemma RoundReaches(env: Env, y: Duplex)
    requires CollisionFree(env) && WellQueued(y) && NotAhead(y) && y.up == [] && y.down != []
    ensures var z := Arrived(env, Go(env, y, Down));
            OnlyQuestions(z.down) && NotAhead(z) && (Reaches(env, z) <==> Reaches(env, y))
  {
    var q, x := y.down[0], Go(env, y, Down);
    MoveKeepsQueues(env, y, Down);
    if q.depth <= MAX_DEPTH && y.cell.held.Some? {
      var d := y.cell.held.value;
      var s := PutOrPatch(env, y.cell.shadow, q.body.base, d);
      SentLeadsTo(env, y.cell.shadow, q.body.base, d);
      assert x.cell == y.cell.(shadow := s.shadow);
      if s.message.Some? {
        var a := Hop(true, q.depth + 1, s.message.value);
        assert x.up == [a];
        assert Arrived(env, x) == Go(env, x, Up) by { assert Ahead(env, Go(env, x, Up), 0) == Go(env, x, Up); }
        if a.depth <= MAX_DEPTH {
          AnswerArrives(env, x, s.shadow, a, d);
        }
      }
    }
  }

  /**
   However what is under way is delivered: once nothing is left, the server has the cluster's content if
   and only if this was to be seen from the start.
   */
  lemma {:induction false} DrainedIff(env: Env, x: Duplex, moves: seq<Move>)
    requires CollisionFree(env) && WellQueued(x) && NotAhead(Arrived(env, x))
    requires forall m | m in moves :: IsDelivery(m)
    ensures OnlyQuestions(Arrived(env, x).down)
    ensures var x' := GoAll(env, x, moves);
            && x'.cell.held == x.cell.held
            && (Idle(x') ==> (Content(x'.cell.stored) == Content(x'.cell.held) <==> Reaches(env, Arrived(env, x))))
    decreases moves
  {
    AheadShape(env, x, |x.up|);
    if moves != [] {
      var m := moves[0];
      assert m in moves;
      MoveKeepsQueues(env, x, m);
      if m.Up? || x.down != [] {
        ArrivedAfter(env, x, m);
      }
      if m.Down? && x.down != [] {
        RoundReaches(env, Arrived(env, x));
      }
      DrainedIff(env, Go(env, x, m), moves[1..]);
    }
  }

  // ---------------------------------------------------------------- the last event

  /**
   For a state in which every report has arrived and the event of the cluster's object is about to be
   handled. A deletion always ends well, and so does an object that the server has some version of, unless
   the change is skipped. A skipped change must already be there or be asked for, and an object that the
   server lacks must be sent or asked for as a whole.
   */
  predicate Safe(env: Env, y: Duplex, e: Event)
    requires OnlyQuestions(y.down)
  {
    var m := ClientEvent(env, y.cell.shadow, e).message;
    match e
    case Deleted => true
    case Modified(d) =>
      if m.None? then Content(y.cell.stored) == Content(Some(d)) || Cured(env, y.cell.stored, y.cell.shadow, y.down, d)
      else y.cell.stored.Some? || m.value.PutObject?
    case Added(d) =>
      y.cell.stored.Some? || Cured(env, None, y.cell.shadow, y.down + [Hop(false, 2, GetObject(None))], d)
  }

  lemma LastReportIff(env: Env, y: Duplex, e: Event)
    requires CollisionFree(env) && WellQueued(y) && y.up == [] && NotAhead(y)
    requires RegularEvent(env, e) && y.cell.held == HeldAfter(e)
    ensures var z := Arrived(env, Go(env, y, Sees(e)));
            OnlyQuestions(z.down) && NotAhead(z) && (Reaches(env, z) <==> Safe(env, y, e))
  {
    var s, x := ClientEvent(env, y.cell.shadow, e), Go(env, y, Sees(e));
    MoveKeepsQueues(env, y, Sees(e));
    if s.message.Some? {
      assert x.up == [Hop(true, 1, s.message.value)];
      assert Arrived(env, x) == Go(env, x, Up) by { assert Ahead(env, Go(env, x, Up), 0) == Go(env, x, Up); }
    }
    match e
    case Deleted =>
    case Modified(d) =>
      SentLeadsTo(env, y.cell.shadow, None, d);
      if s.message.Some? {
        AnswerArrives(env, x, s.shadow, x.up[0], d);
        if y.cell.stored.None? && env.strategy.Patch? {
          NoCopyWithShadow(env, s.shadow, y.down, d);
        }
      }
    case Added(d) =>
      if y.cell.stored.Some? && env.hash(y.cell.stored.value) != env.hash(d) {
        if !SameUpToVersion(y.cell.stored.value, d) {
          OwnBaseCures(env, y.cell.stored.value, y.cell.shadow, y.down, 2, d);
        }
        assert Go(env, x, Up).down == y.down + [Hop(false, 2, GetObject(y.cell.stored))];
      }
  }

  // ---------------------------------------------------------------- reconciliation

  /**
   For a state in which every report has arrived and the key is about to be reconciled at this depth, with no
   event waiting. A deletion and a copy end well if they get through. A checksum ends well if the server has
   some version and can still ask for the rest, or if it lacks the object and the client, which has no shadow
   any more, reads a question for a copy first.
   */
  predicate SafeRepair(env: Env, y: Duplex, r: Repair, depth: nat)
    requires OnlyQuestions(y.down)
  {
    var c := y.cell;
    var bare := y.(cell := c.(shadow := ShadowAfterRepair(c, r)));
    if RepairMessage(env, c.held, r).None? || depth > MAX_DEPTH then Reaches(env, bare)
    else if !r.Verify? then true
    else if c.stored.None? then Cured(env, None, None, y.down + [Hop(false, depth + 1, GetObject(None))], c.held.value)
    else depth <= MAX_DEPTH - 2 || Reaches(env, bare)
  }

  lemma RepairIff(env: Env, y: Duplex, r: Repair, depth: nat)
    requires CollisionFree(env) && WellQueued(y) && y.up == [] && NotAhead(y)
    ensures var z := Arrived(env, Go(env, y, Repairs(r, depth)));
            OnlyQuestions(z.down) && NotAhead(z) && (Reaches(env, z) <==> SafeRepair(env, y, r, depth))
  {
    var x, c := Go(env, y, Repairs(r, depth)), y.cell;
    MoveKeepsQueues(env, y, Repairs(r, depth));
    if x.up != [] {
      assert Arrived(env, x) == Go(env, x, Up) by { assert Ahead(env, Go(env, x, Up), 0) == Go(env, x, Up); }
      if depth <= MAX_DEPTH {
        if r.Replace? {
          ServerTakesOrAsks(env, c.stored, x.up[0].body, c.held.value);
        } else if r.Verify? && c.stored.Some? && env.hash(c.stored.value) != env.hash(c.held.value) {
          var q := Hop(false, depth + 1, GetObject(c.stored));
          assert Go(env, x, Up).down == y.down + [q];
          if q.depth >= MAX_DEPTH {
            DeepQuestion(env, c.stored, None, y.down, q, c.held.value);
          } else if !SameUpToVersion(c.stored.value, c.held.value) {
            OwnBaseCures(env, c.stored.value, None, y.down, q.depth, c.held.value);
          }
        }
      }
    }
  }

  // ---------------------------------------------------------------- runs

  /** The link, the object last held by the cluster, and the events that the client has not handled yet. */
  datatype Watched = Watched(link: Duplex, seen: Option<Doc>, pending: seq<Event>)

  datatype Step =
    /** the cluster changes, or lists its object again, and an event is on its way to the client */
    | Happen(event: Event)
    /** a waiting event is overridden by a later one */
    | Override(i: nat)
    /** the client handles the event that waited longest */
    | Handle
    /** the client reconciles the key with the server */
    | Reconcile(repair: Repair, depth: nat)
    /** the oldest message in one direction arrives */
    | Pass(move: Move)

  function Do(env: Env, w: Watched, s: Step): Watched {
    match s
    case Happen(e) => Watched(Go(env, w.link, Changes(HeldAfter(e))), SeenAfter(w.seen, e), w.pending + [e])
    case Override(i) => if i + 1 < |w.pending| then w.(pending := w.pending[..i] + w.pending[i + 1..]) else w
    case Handle =>
      if w.pending == [] then w
      else w.(link := Go(env, w.link, Sees(w.pending[0])), pending := w.pending[1..])
    case Reconcile(r, depth) => w.(link := Go(env, w.link, Repairs(r, depth)))
    case Pass(m) => if IsDelivery(m) then w.(link := Go(env, w.link, m)) else w
  }

  function DoAll(env: Env, w: Watched, steps: seq<Step>): Watched
    decreases steps
  {
    if steps == [] then w else DoAll(env, Do(env, w, steps[0]), steps[1..])
  }

  /** What happens in the cluster brings regular objects, each newer than all before or the same again. */
  predicate Proper(env: Env, w: Watched, s: Step) {
    s.Happen? ==>
      && RegularEvent(env, s.event)
      && (!s.event.Deleted? && w.seen.Some? ==> NoNewer(w.seen.value, s.event.doc))
  }

  predicate ProperRun(env: Env, w: Watched, steps: seq<Step>)
    decreases steps
  {
    steps == [] || (Proper(env, w, steps[0]) && ProperRun(env, Do(env, w, steps[0]), steps[1..]))
  }

  predicate Known(seen: Option<Doc>, d: Doc) {
    seen.Some? && NoNewer(d, seen.value)
  }

  /** The last waiting event is the cluster's latest, and nothing that waits or gets stored is newer than it. */
  ghost predicate Tidy(env: Env, w: Watched) {
    var y := Arrived(env, w.link);
    && WellQueued(w.link)
    && (w.pending != [] ==> HeldAfter(w.pending[|w.pending| - 1]) == w.link.cell.held)
    && (forall e | e in w.pending :: RegularEvent(env, e) && (!e.Deleted? ==> Known(w.seen, e.doc)))
    && (w.link.cell.held.Some? ==> w.seen == w.link.cell.held && Regular(w.seen.value))
    && (y.cell.stored.Some? ==> Known(w.seen, y.cell.stored.value))
  }

  /** What arrives because of a report that brings d is what was there, or d. */
  lemma ReportStores(env: Env, y: Duplex, d: Doc)
    requires CollisionFree(env) && WellQueued(y) && |y.up| <= 1
    requires y.up != [] ==> y.up[0].body.ObjectDeleted? || y.up[0].body.NewChecksum? || Brings(env, y.up[0].body, d)
    ensures Arrived(env, y).cell.stored in {None, y.cell.stored, Some(d)}
  {
    if y.up != [] {
      assert Arrived(env, y) == Go(env, y, Up) by { assert Ahead(env, Go(env, y, Up), 0) == Go(env, y, Up); }
      if Brings(env, y.up[0].body, d) { ServerTakesOrAsks(env, y.cell.stored, y.up[0].body, d); }
    }
  }

  lemma HandleStaysTidy(env: Env, w: Watched)
    requires CollisionFree(env) && Tidy(env, w) && w.pending != []
    ensures Tidy(env, Do(env, w, Handle))
  {
    var e, y := w.pending[0], Arrived(env, w.link);
    assert e in w.pending;
    AheadShape(env, w.link, |w.link.up|);
    MoveKeepsQueues(env, w.link, Sees(e));
    ArrivedAfter(env, w.link, Sees(e));
    MoveKeepsQueues(env, y, Sees(e));
    if e.Modified? { SentLeadsTo(env, y.cell.shadow, None, e.doc); }
    ReportStores(env, Go(env, y, Sees(e)), if e.Deleted? then map[] else e.doc);
  }

  lemma ReconcileStaysTidy(env: Env, w: Watched, r: Repair, depth: nat)
    requires CollisionFree(env) && Tidy(env, w)
    ensures Tidy(env, Do(env, w, Reconcile(r, depth)))
  {
    var m, y := Repairs(r, depth), Arrived(env, w.link);
    AheadShape(env, w.link, |w.link.up|);
    MoveKeepsQueues(env, w.link, m);
    ArrivedAfter(env, w.link, m);
    MoveKeepsQueues(env, y, m);
    ReportStores(env, Go(env, y, m), if y.cell.held.Some? then y.cell.held.value else map[]);
  }

  lemma PassStaysTidy(env: Env, w: Watched, m: Move)
    requires CollisionFree(env) && Tidy(env, w) && IsDelivery(m)
    ensures Tidy(env, Do(env, w, Pass(m)))
  {
    var y := Arrived(env, w.link);
    AheadShape(env, w.link, |w.link.up|);
    MoveKeepsQueues(env, w.link, m);
    if m.Up? || w.link.down != [] {
      ArrivedAfter(env, w.link, m);
    }
    if m.Down? && w.link.down != [] {
      MoveKeepsQueues(env, y, Down);
      if y.cell.held.Some? { SentLeadsTo(env, y.cell.shadow, y.down[0].body.base, y.cell.held.value); }
      ReportStores(env, Go(env, y, Down), if y.cell.held.Some? then y.cell.held.value else map[]);
    }
  }

  lemma HappenStaysTidy(env: Env, w: Watched, e: Event)
    requires Tidy(env, w) && Proper(env, w, Happen(e))
    ensures Tidy(env, Do(env, w, Happen(e)))
  {
    var w' := Do(env, w, Happen(e));
    AheadShape(env, w.link, |w.link.up|);
    ArrivedAfter(env, w.link, Changes(HeldAfter(e)));
    forall f | f in w'.pending ensures RegularEvent(env, f) && (!f.Deleted? ==> Known(w'.seen, f.doc)) {
      assert f in w.pending || f == e;
    }
  }

  lemma StepStaysTidy(env: Env, w: Watched, s: Step)
    requires CollisionFree(env) && Tidy(env, w) && Proper(env, w, s)
    ensures Tidy(env, Do(env, w, s))
  {
    match s
    case Happen(e) => HappenStaysTidy(env, w, e);
    case Override(i) =>
    case Handle => if w.pending != [] { HandleStaysTidy(env, w); }
    case Reconcile(r, depth) => ReconcileStaysTidy(env, w, r, depth);
    case Pass(m) => if IsDelivery(m) { PassStaysTidy(env, w, m); }
  }

  lemma {:induction false} RunStaysTidy(env: Env, w: Watched, steps: seq<Step>)
    requires CollisionFree(env) && Tidy(env, w) && ProperRun(env, w, steps)
    ensures Tidy(env, DoAll(env, w, steps))
    decreases steps
  {
    if steps != [] {
      StepStaysTidy(env, w, steps[0]);
      RunStaysTidy(env, Do(env, w, steps[0]), steps[1..]);
    }
  }

  /**
   The waiting event is handled and what is then under way is delivered: if nothing is left, the outcome is `good`.
   */
  predicate EndsWellIff(env: Env, w: Watched, rest: seq<Move>, good: bool)
    requires w.pending != []
  {
    var x := GoAll(env, Go(env, w.link, Sees(w.pending[0])), rest);
    Idle(x) ==> (Content(x.cell.stored) == Content(x.cell.held) <==> good)
  }

  lemma LastEventIff(env: Env, w: Watched, rest: seq<Move>)
    requires CollisionFree(env) && Tidy(env, w) && |w.pending| == 1 && forall m | m in rest :: IsDelivery(m)
    ensures OnlyQuestions(Arrived(env, w.link).down)
    ensures EndsWellIff(env, w, rest, Safe(env, Arrived(env, w.link), w.pending[0]))
  {
    var e := w.pending[0];
    AheadShape(env, w.link, |w.link.up|);
    MoveKeepsQueues(env, w.link, Sees(e));
    ArrivedAfter(env, w.link, Sees(e));
    LastReportIff(env, Arrived(env, w.link), e);
    DrainedIff(env, Go(env, w.link, Sees(e)), rest);
  }

  /**
   Every run, with all kinds of events, up to the handling of the last one: in whatever order the rest is
   then delivered, the server ends with the cluster's content if and only if handling that event was safe.
   */
  lemma EveryRunSettlesIff(env: Env, w: Watched, steps: seq<Step>, rest: seq<Move>)
    requires CollisionFree(env) && Tidy(env, w) && ProperRun(env, w, steps)
    requires |DoAll(env, w, steps).pending| == 1 && forall m | m in rest :: IsDelivery(m)
    ensures var w' := DoAll(env, w, steps);
            && OnlyQuestions(Arrived(env, w'.link).down)
            && EndsWellIff(env, w', rest, Safe(env, Arrived(env, w'.link), w'.pending[0]))
  {
    RunStaysTidy(env, w, steps);
    LastEventIff(env, DoAll(env, w, steps), rest);
  }

  // ---------------------------------------------------------------- step by step

  /** While no event waits, deliveries alone lead to the cluster's content exactly if `safe`. */
  ghost predicate Settling(env: Env, w: Watched, safe: bool) {
    && Tidy(env, w)
    && (w.pending == [] ==> OnlyQuestions(Arrived(env, w.link).down) && (Reaches(env, Arrived(env, w.link)) <==> safe))
  }

  /** Handling the last event that waits decides, and so does reconciling when none waits; nothing else does. */
  predicate SafeAfter(env: Env, w: Watched, s: Step, safe: bool) {
    var y := Arrived(env, w.link);
    if s.Handle? && |w.pending| == 1 then OnlyQuestions(y.down) && Safe(env, y, w.pending[0])
    else if s.Reconcile? && w.pending == [] then OnlyQuestions(y.down) && SafeRepair(env, y, s.repair, s.depth)
    else safe
  }

  lemma StepStaysSettling(env: Env, w: Watched, s: Step, safe: bool)
    requires CollisionFree(env) && Settling(env, w, safe) && Proper(env, w, s)
    ensures Settling(env, Do(env, w, s), SafeAfter(env, w, s, safe))
  {
    StepStaysTidy(env, w, s);
    var y := Arrived(env, w.link);
    AheadShape(env, w.link, |w.link.up|);
    match s
    case Happen(e) =>
    case Override(i) =>
    case Handle =>
      if |w.pending| == 1 {
        ArrivedAfter(env, w.link, Sees(w.pending[0]));
        LastReportIff(env, y, w.pending[0]);
      }
    case Reconcile(r, depth) =>
      ArrivedAfter(env, w.link, Repairs(r, depth));
      RepairIff(env, y, r, depth);
    case Pass(m) =>
      if w.pending == [] && IsDelivery(m) {
        if m.Up? || w.link.down != [] { ArrivedAfter(env, w.link, m); }
        if m.Down? && w.link.down != [] { RoundReaches(env, y); }
      }
  }

  // ---------------------------------------------------------------- runs without deletions

  /** What the server lacks, the client has not sent yet and will be asked for. */
  predicate Asking(env: Env, y: Duplex) {
    y.cell.stored.None? ==>
      && (env.strategy.Patch? ==> y.cell.shadow.None?)
      && forall q | q in y.down :: q.body == GetObject(None) && q.depth < MAX_DEPTH
  }

  ghost predicate NeverLacking(env: Env, w: Watched) {
    Asking(env, Arrived(env, w.link))
  }

  /** Not a deletion, neither as an event nor by reconciliation, and no reconciliation too deep to be answered. */
  predicate Gentle(w: Watched, s: Step) {
    && (s.Handle? && w.pending != [] ==> !w.pending[0].Deleted?)
    && (s.Reconcile? ==> !s.repair.Remove? && s.depth <= MAX_DEPTH - 2)
  }

  predicate GentleRun(env: Env, w: Watched, steps: seq<Step>)
    decreases steps
  {
    steps == [] || (Gentle(w, steps[0]) && GentleRun(env, Do(env, w, steps[0]), steps[1..]))
  }

  lemma StepNeverLacks(env: Env, w: Watched, s: Step)
    requires CollisionFree(env) && Tidy(env, w) && NeverLacking(env, w)
    requires Gentle(w, s)
    ensures NeverLacking(env, Do(env, w, s))
  {
    var y := Arrived(env, w.link);
    AheadShape(env, w.link, |w.link.up|);
    match s
    case Happen(e) => ArrivedAfter(env, w.link, Changes(HeldAfter(e)));
    case Override(i) =>
    case Handle =>
      if w.pending != [] {
        assert w.pending[0] in w.pending;
        ArrivedAfter(env, w.link, Sees(w.pending[0]));
        HandledNeverLacks(env, y, w.pending[0]);
      }
    case Reconcile(r, depth) =>
      ArrivedAfter(env, w.link, Repairs(r, depth));
      ReconciledNeverLacks(env, y, r, depth);
    case Pass(m) =>
      if IsDelivery(m) && (m.Up? || w.link.down != []) {
        ArrivedAfter(env, w.link, m);
        if m.Down? {
          assert y.down[0] in y.down;
          AnswerNeverLacks(env, y);
        }
      }
  }

  lemma HandledNeverLacks(env: Env, y: Duplex, e: Event)
    requires WellQueued(y) && y.up == [] && !e.Deleted?
    requires Asking(env, y)
    ensures Asking(env, Arrived(env, Go(env, y, Sees(e))))
  {
    var x := Go(env, y, Sees(e));
    if x.up != [] {
      assert Arrived(env, x) == Go(env, x, Up) by { assert Ahead(env, Go(env, x, Up), 0) == Go(env, x, Up); }
    }
  }

  lemma ReconciledNeverLacks(env: Env, y: Duplex, r: Repair, depth: nat)
    requires WellQueued(y) && y.up == [] && !r.Remove? && depth <= MAX_DEPTH - 2 && Asking(env, y)
    ensures Asking(env, Arrived(env, Go(env, y, Repairs(r, depth))))
  {
    var x := Go(env, y, Repairs(r, depth));
    if x.up != [] {
      assert Arrived(env, x) == Go(env, x, Up) by { assert Ahead(env, Go(env, x, Up), 0) == Go(env, x, Up); }
    }
  }

  lemma AnswerNeverLacks(env: Env, y: Duplex)
    requires WellQueued(y) && y.up == [] && y.down != []
    requires Asking(env, y)
    ensures Asking(env, Arrived(env, Go(env, y, Down)))
  {
    var x := Go(env, y, Down);
    assert y.down[0] in y.down && forall q | q in y.down[1..] :: q in y.down;
    if x.up != [] {
      assert Arrived(env, x) == Go(env, x, Up) by { assert Ahead(env, Go(env, x, Up), 0) == Go(env, x, Up); }
    }
  }

  /** The client sends something for the event, or the content is there, or it is asked for. */
  predicate SentOrThere(env: Env, y: Duplex, e: Event)
    requires OnlyQuestions(y.down)
  {
    || ClientEvent(env, y.cell.shadow, e).message.Some?
    || Content(y.cell.stored) == Content(HeldAfter(e))
    || Cured(env, y.cell.stored, y.cell.shadow, y.down, e.doc)
  }

  lemma AskingIsSafe(env: Env, y: Duplex, e: Event)
    requires OnlyQuestions(y.down) && Asking(env, y)
    ensures Safe(env, y, e) <==> SentOrThere(env, y, e)
  {
    if e.Added? && y.cell.stored.None? {
      var down := y.down + [Hop(false, 2, GetObject(None))];
      assert down[0] in down;
      assert Cures(env, None, y.cell.shadow, down[0], e.doc);
    }
  }

  /** Reconciliation of such a state ends well without further conditions. */
  lemma AskingRepairIsSafe(env: Env, y: Duplex, r: Repair, depth: nat)
    requires OnlyQuestions(y.down) && Asking(env, y) && y.cell.held.Some? && !r.Remove? && depth <= MAX_DEPTH - 2
    ensures SafeRepair(env, y, r, depth)
  {
    if r.Verify? && y.cell.stored.None? {
      var down := y.down + [Hop(false, depth + 1, GetObject(None))];
      assert down[0] in down;
      assert Cures(env, None, None, down[0], y.cell.held.value);
    }
  }

  lemma {:induction false} RunNeverLacks(env: Env, w: Watched, steps: seq<Step>)
    requires CollisionFree(env) && Tidy(env, w) && NeverLacking(env, w)
    requires ProperRun(env, w, steps) && GentleRun(env, w, steps)
    ensures NeverLacking(env, DoAll(env, w, steps))
    decreases steps
  {
    if steps != [] {
      StepStaysTidy(env, w, steps[0]);
      StepNeverLacks(env, w, steps[0]);
      RunNeverLacks(env, Do(env, w, steps[0]), steps[1..]);
    }
  }

  /**
   No matter how late and in which order things were handled, which events were overridden and when the key was
   reconciled: as long as no deletion was handled or sent before, the server ends with the cluster's content,
   unless the last event is a change that the client skips; and then it does exactly if the content is there or is
   asked for.
   */
  lemma ServerCatchesUp(env: Env, w: Watched, steps: seq<Step>, rest: seq<Move>)
    requires CollisionFree(env) && Tidy(env, w) && NeverLacking(env, w)
    requires ProperRun(env, w, steps) && GentleRun(env, w, steps)
    requires |DoAll(env, w, steps).pending| == 1 && forall m | m in rest :: IsDelivery(m)
    ensures var w' := DoAll(env, w, steps);
            && OnlyQuestions(Arrived(env, w'.link).down)
            && EndsWellIff(env, w', rest, SentOrThere(env, Arrived(env, w'.link), w'.pending[0]))
  {
    EveryRunSettlesIff(env, w, steps, rest);
    RunNeverLacks(env, w, steps);
    AskingIsSafe(env, Arrived(env, DoAll(env, w, steps).link), DoAll(env, w, steps).pending[0]);
  }

  // ---------------------------------------------------------------- fresh changes are not enough

  /** The object is seen again, changed, and changed back to the content it had; the first question is read late. */
  function AnsweredFromOldBase(again: Doc, changed: Doc, back: Doc): (seq<Step>, seq<Step>) {
    ([Happen(Added(again)), Handle, Pass(Up), Happen(Modified(changed)), Handle, Pass(Up)],
     [Happen(Modified(back)), Pass(Down), Handle])
  }

  /**
   When exchanges overlap, a skipped change can lose content although each change is fresh when it is handled
   and nothing is deleted: the late answer is skipped against the question's base, which then is the shadow.
   */
  lemma FreshChangesLoseContent(env: Env, known: Doc, again: Doc, changed: Doc, back: Doc)
    requires env.strategy.Patch? && env.hash(known) != ChecksumOf(env, again)
    requires StringValueBigger(RawVersion(again), RawVersion(known))
    requires StringValueBigger(RawVersion(changed), RawVersion(again))
    requires StringValueBigger(RawVersion(back), RawVersion(changed))
    requires Regular(back) && Coalescing.Numbered(back) && SameUpToVersion(known, back)
    requires !SameUpToVersion(known, changed)
    ensures var (before, after) := AnsweredFromOldBase(again, changed, back);
            var w := Watched(Duplex(Cell(Some(known), None, Some(known)), [], []), Some(known), []);
            var w1 := DoAll(env, w, before);
            var w2 := DoAll(env, w1, after);
            && Idle(w2.link) && w2.pending == []
            && w2.link.cell == Cell(Some(back), Some(known), Some(changed))
            && Content(w2.link.cell.stored) != Content(w2.link.cell.held)
            && Coalescing.Fresh(env, None, Modified(changed)) && Coalescing.Fresh(env, Some(known), Modified(back))
  {
    SeenAndChanged(env, known, again, changed);
    AnsweredLate(env, known, changed, back);
  }

  lemma SeenAndChanged(env: Env, known: Doc, again: Doc, changed: Doc)
    requires env.strategy.Patch? && env.hash(known) != ChecksumOf(env, again)
    requires StringValueBigger(RawVersion(changed), RawVersion(known))
    ensures DoAll(env, Watched(Duplex(Cell(Some(known), None, Some(known)), [], []), Some(known), []),
                  [Happen(Added(again)), Handle, Pass(Up), Happen(Modified(changed)), Handle, Pass(Up)])
            == Watched(Duplex(Cell(Some(changed), Some(changed), Some(changed)), [],
                              [Hop(false, 2, GetObject(Some(known)))]), Some(changed), [])
  {
    var w := Watched(Duplex(Cell(Some(known), None, Some(known)), [], []), Some(known), []);
    var a, b := [Happen(Added(again)), Handle, Pass(Up)], [Happen(Modified(changed)), Handle, Pass(Up)];
    assert [Happen(Added(again)), Handle, Pass(Up), Happen(Modified(changed)), Handle, Pass(Up)] == a + b;
    DoOn(env, w, a, b);
    SeenAgain(env, known, again);
    ChangedMeanwhile(env, known, again, changed);
  }

  lemma ChangedMeanwhile(env: Env, known: Doc, again: Doc, changed: Doc)
    requires env.strategy.Patch? && StringValueBigger(RawVersion(changed), RawVersion(known))
    ensures DoAll(env, Watched(Duplex(Cell(Some(again), None, Some(known)), [],
                                      [Hop(false, 2, GetObject(Some(known)))]), Some(again), []),
                  [Happen(Modified(changed)), Handle, Pass(Up)])
            == Watched(Duplex(Cell(Some(changed), Some(changed), Some(changed)), [],
                              [Hop(false, 2, GetObject(Some(known)))]), Some(changed), [])
  {
    var down := [Hop(false, 2, GetObject(Some(known)))];
    var w := Watched(Duplex(Cell(Some(again), None, Some(known)), [], down), Some(again), []);
    var put := PutObject(ChecksumOf(env, changed), changed);
    var w' := Watched(Duplex(Cell(Some(changed), Some(changed), Some(known)), [Hop(true, 1, put)], down),
        Some(changed), []);
    ThreeSteps(env, w, Happen(Modified(changed)), Handle, Pass(Up));
    assert Do(env, Do(env, w, Happen(Modified(changed))), Handle) == w';
    assert ServerStep(env, Some(known), put) == ServerOut(Some(changed), None, false);
  }

  lemma SeenAgain(env: Env, known: Doc, again: Doc)
    requires env.hash(known) != ChecksumOf(env, again)
    ensures DoAll(env, Watched(Duplex(Cell(Some(known), None, Some(known)), [], []), Some(known), []),
                  [Happen(Added(again)), Handle, Pass(Up)])
            == Watched(Duplex(Cell(Some(again), None, Some(known)), [],
                              [Hop(false, 2, GetObject(Some(known)))]), Some(again), [])
  {
    var w := Watched(Duplex(Cell(Some(known), None, Some(known)), [], []), Some(known), []);
    ThreeSteps(env, w, Happen(Added(again)), Handle, Pass(Up));
  }

  lemma AnsweredLate(env: Env, known: Doc, changed: Doc, back: Doc)
    requires env.strategy.Patch? && Regular(back) && Coalescing.Numbered(back) && SameUpToVersion(known, back)
    requires RawVersion(known) != RawVersion(back)
    ensures DoAll(env, Watched(Duplex(Cell(Some(changed), Some(changed), Some(changed)), [],
                                      [Hop(false, 2, GetObject(Some(known)))]), Some(changed), []),
                  [Happen(Modified(back)), Pass(Down), Handle])
            == Watched(Duplex(Cell(Some(back), Some(known), Some(changed)), [], []), Some(back), [])
  {
    Coalescing.SameContentIsSkipped(known, back);
    var w := Watched(Duplex(Cell(Some(changed), Some(changed), Some(changed)), [],
                            [Hop(false, 2, GetObject(Some(known)))]), Some(changed), []);
    var w' := Watched(Duplex(Cell(Some(back), Some(known), Some(changed)), [], []), Some(back), [Modified(back)]);
    ThreeSteps(env, w, Happen(Modified(back)), Pass(Down), Handle);
    assert PutOrPatch(env, Some(changed), Some(known), back) == Sent(Some(known), None);
    assert PutOrPatch(env, Some(known), None, back) == Sent(Some(known), None);
    assert Do(env, Do(env, w, Happen(Modified(back))), Pass(Down)) == w';
  }

  lemma ThreeSteps(env: Env, w: Watched, a: Step, b: Step, c: Step)
    ensures DoAll(env, w, [a, b, c]) == Do(env, Do(env, Do(env, w, a), b), c)
  {
    assert [a, b, c][1..] == [b, c] && [b, c][1..] == [c] && [c][1..] == [];
    assert DoAll(env, Do(env, w, a), [b, c]) == DoAll(env, Do(env, Do(env, w, a), b), [c]);
  }

  lemma {:induction false} DoOn(env: Env, w: Watched, a: seq<Step>, b: seq<Step>)
    ensures DoAll(env, w, a + b) == DoAll(env, DoAll(env, w, a), b)
    decreases a
  {
    if a == [] {
      assert a + b == b;
    } else {
      assert (a + b)[1..] == a[1..] + b;
      DoOn(env, Do(env, w, a[0]), a[1..], b);
    }
  }
}
