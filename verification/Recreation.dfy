/**
 An object that was deleted and is created anew, while messages of the old object may still be under way in
 both directions and the event of the new object still waits. Old questions are then answered from the new
 object. The new object always gets to the server exactly if the first of them asks for a copy.
 */
module Recreation {
  import opened Options
  import opened JsonMerge
  import opened Versions
  import opened Protocol
  import opened Exchange
  import opened Histories
  import opened Overlap
  import opened EventualConsistency
  import opened ShadowPrediction

  // ---------------------------------------------------------------- the deletion

  /** The deletion has been handled: no shadow, and nothing on the server once what is under way has arrived. */
  predicate Gone(env: Env, x: Duplex) {
    WellQueued(x) && x.cell.shadow.None? && Arrived(env, x).cell.stored.None?
  }

  /** Whatever was going on before, handling a deletion leads there, and it lasts while the object is away. */
  lemma DeletionLeavesGone(env: Env, x: Duplex, m: Move)
    requires env.strategy.Patch? && WellQueued(x)
    requires m == Sees(Deleted) || (Gone(env, x) && (m.Changes? || (IsDelivery(m) && x.cell.held.None?)))
    ensures Gone(env, Go(env, x, m))
  {
    var y := Arrived(env, x);
    AheadShape(env, x, |x.up|);
    MoveKeepsQueues(env, x, m);
    if !m.Down? || x.down != [] {
      ArrivedAfter(env, x, m);
    }
    if m.Sees? {
      var z := Go(env, y, m);
      assert z.up == [Hop(true, 1, ObjectDeleted)];
      assert Arrived(env, z) == Go(env, z, Up) by { assert Ahead(env, Go(env, z, Up), 0) == Go(env, z, Up); }
    } else if m.Down? && x.down != [] {
      assert y.down[0] == x.down[0];
      assert Go(env, y, Down).up == [];
    }
  }

  /** After a deletion, deliveries alone end with nothing on the server while the object is away. */
  lemma {:induction false} DeletedObjectIsForgotten(env: Env, x: Duplex, moves: seq<Move>)
    requires env.strategy.Patch? && Gone(env, x) && x.cell.held.None? && forall m | m in moves :: IsDelivery(m)
    ensures var x' := GoAll(env, x, moves);
            Gone(env, x') && (x'.up == [] ==> x'.cell.stored.None?)
    decreases moves
  {
    if moves != [] {
      assert moves[0] in moves;
      DeletionLeavesGone(env, x, moves[0]);
      MoveKeepsQueues(env, x, moves[0]);
      DeletedObjectIsForgotten(env, Go(env, x, moves[0]), moves[1..]);
    }
  }

  // ---------------------------------------------------------------- the first question

  /** The oldest question that the depth guard lets through, if there is one. */
  function FirstQuestion(down: seq<Hop>): Option<Hop> {
    if down == [] then None
    else if down[0].depth <= MAX_DEPTH then Some(down[0])
    else FirstQuestion(down[1..])
  }

  /** A client without a shadow will answer the first question with a copy, and that copy gets through. */
  predicate AsksForCopy(down: seq<Hop>) {
    FirstQuestion(down).Some? ==>
      FirstQuestion(down).value.body == GetObject(None) && FirstQuestion(down).value.depth < MAX_DEPTH
  }

  /** With one more question at the end that asks for a copy, there is a first question, and it helps. */
  lemma {:induction false} CopyIsAskedFor(env: Env, down: seq<Hop>, depth: nat, d: Doc)
    requires OnlyQuestions(down) && AsksForCopy(down) && depth < MAX_DEPTH
    ensures OnlyQuestions(down + [Hop(false, depth, GetObject(None))])
    ensures Cured(env, None, None, down + [Hop(false, depth, GetObject(None))], d)
  {
    var q := Hop(false, depth, GetObject(None));
    if down == [] {
      assert Cures(env, None, None, q, d);
    } else {
      assert (down + [q])[1..] == down[1..] + [q];
      if down[0].depth > MAX_DEPTH {
        CopyIsAskedFor(env, down[1..], depth, d);
      } else {
        assert Cures(env, None, None, down[0], d);
      }
    }
  }

  // ---------------------------------------------------------------- before the event is handled

  /** The server has the new content, or it has nothing and will be asked in the right way. */
  predicate Fine(env: Env, y: Duplex, d: Doc) {
    && WellQueued(y) && y.cell.held == Some(d)
    && (|| (y.cell.stored.Some? && NoNewer(y.cell.stored.value, d) && SameUpToVersion(y.cell.stored.value, d))
        || (y.cell.stored.None? && y.cell.shadow.None? && AsksForCopy(y.down)))
  }

  lemma RoundStaysFine(env: Env, y: Duplex, d: Doc)
    requires CollisionFree(env) && env.strategy.Patch? && Regular(d) && y.up == [] && y.down != [] && Fine(env, y, d)
    ensures Fine(env, Arrived(env, Go(env, y, Down)), d)
  {
    var q, x := y.down[0], Go(env, y, Down);
    MoveKeepsQueues(env, y, Down);
    if q.depth <= MAX_DEPTH {
      SentLeadsTo(env, y.cell.shadow, q.body.base, d);
      if x.up != [] {
        assert Arrived(env, x) == Go(env, x, Up) by { assert Ahead(env, Go(env, x, Up), 0) == Go(env, x, Up); }
        MoveKeepsQueues(env, x, Up);
        ServerTakesOrAsks(env, y.cell.stored, x.up[0].body, d);
      }
    }
  }

  lemma {:induction false} DeliveriesStayFine(env: Env, x: Duplex, d: Doc, moves: seq<Move>)
    requires CollisionFree(env) && env.strategy.Patch? && Regular(d) && WellQueued(x) && Fine(env, Arrived(env, x), d)
    requires forall m | m in moves :: IsDelivery(m)
    ensures WellQueued(GoAll(env, x, moves)) && Fine(env, Arrived(env, GoAll(env, x, moves)), d)
    decreases moves
  {
    if moves != [] {
      var m := moves[0];
      assert m in moves;
      AheadShape(env, x, |x.up|);
      MoveKeepsQueues(env, x, m);
      if m.Up? || x.down != [] { ArrivedAfter(env, x, m); }
      if m.Down? && x.down != [] { RoundStaysFine(env, Arrived(env, x), d); }
      DeliveriesStayFine(env, Go(env, x, m), d, moves[1..]);
    }
  }

  lemma FineIsSafe(env: Env, y: Duplex, d: Doc, e: Event)
    requires env.strategy.Patch? && Regular(d) && Fine(env, y, d) && (e == Added(d) || e == Modified(d))
    ensures Safe(env, y, e)
  {
    if y.cell.stored.None? {
      CopyIsAskedFor(env, y.down, 2, d);
    }
  }

  // ---------------------------------------------------------------- exactly when

  ghost predicate Deliveries(moves: seq<Move>) {
    forall m | m in moves :: IsDelivery(m)
  }

  /** Whenever the event is handled and however messages are delivered, the server ends with the new content. */
  ghost predicate AlwaysArrives(env: Env, x: Duplex, e: Event) {
    forall before: seq<Move>, after: seq<Move> | Deliveries(before) && Deliveries(after) ::
      var x' := GoAll(env, Go(env, GoAll(env, x, before), Sees(e)), after);
      Idle(x') ==> Content(x'.cell.stored) == Content(x'.cell.held)
  }

  /** Answering a first question of the other kind, the client takes up a shadow without sending a copy. */
  lemma {:induction false} WrongQuestionDeadlocks(env: Env, x: Duplex) returns (moves: seq<Move>)
    requires env.strategy.Patch? && OnlyQuestions(x.down) && !AsksForCopy(x.down)
    requires x.cell.stored.None? && x.cell.shadow.None? && x.cell.held.Some? && x.up == []
    ensures Deliveries(moves) && Deadlocked(GoAll(env, x, moves))
    decreases |x.down|
  {
    var x' := Go(env, x, Down);
    if x.down[0].depth > MAX_DEPTH {
      var rest := WrongQuestionDeadlocks(env, x');
      moves := [Down] + rest;
      assert moves[1..] == rest;
    } else {
      moves := [Down];
      assert moves[1..] == [];
      assert Deadlocked(x');
    }
  }

  function Ups(n: nat): seq<Move> {
    seq(n, _ => Up)
  }

  lemma {:induction false} GoUps(env: Env, x: Duplex, n: nat)
    ensures GoAll(env, x, Ups(n)) == Ahead(env, x, n)
    decreases n
  {
    if n > 0 {
      assert Ups(n)[1..] == Ups(n - 1);
      GoUps(env, Go(env, x, Up), n - 1);
    }
  }

  /** Otherwise there is an order of deliveries that loses the object, be it seen as an addition or as a change. */
  lemma RecreationCanFail(env: Env, x: Duplex, e: Event) returns (before: seq<Move>, after: seq<Move>)
    requires env.strategy.Patch? && Gone(env, x) && x.cell.held.Some? && !AsksForCopy(Arrived(env, x).down)
    requires !e.Deleted?
    ensures Deliveries(before) && Deliveries(after)
    ensures var x' := GoAll(env, Go(env, GoAll(env, x, before), Sees(e)), after); Idle(x') && Deadlocked(x')
  {
    var n := |x.up|;
    AheadShape(env, x, n);
    GoUps(env, x, n);
    var a := WrongQuestionDeadlocks(env, Arrived(env, x));
    GoOn(env, x, Ups(n), a);
    before := Ups(n) + a;
    var x1 := GoAll(env, x, before);
    DeadlockStays(env, x1, Sees(e));
    after := Drains(env, Go(env, x1, Sees(e)));
    DeadlockIsForever(env, Go(env, x1, Sees(e)), after);
    HeldStays(env, x, before);
  }

  lemma {:induction false} HeldStays(env: Env, x: Duplex, moves: seq<Move>)
    requires WellQueued(x) && Changesless(moves)
    ensures GoAll(env, x, moves).cell.held == x.cell.held && WellQueued(GoAll(env, x, moves))
    decreases moves
  {
    if moves != [] {
      assert moves[0] in moves;
      MoveKeepsQueues(env, x, moves[0]);
      HeldStays(env, Go(env, x, moves[0]), moves[1..]);
    }
  }

  predicate Changesless(moves: seq<Move>) {
    forall m | m in moves :: !m.Changes? && !m.Repairs?
  }

  /**
   The new object always gets to the server, however late its event is handled, if and only if the first
   question that the client will still read asks for a copy. It makes no difference whether the event is an
   addition or, because events coalesce, a change.
   */
  lemma RecreationSettlesIff(env: Env, x: Duplex, d: Doc, e: Event)
    requires CollisionFree(env) && env.strategy.Patch? && Gone(env, x)
    requires x.cell.held == Some(d) && Regular(d) && (e == Modified(d) || (e == Added(d) && HonestChecksum(env, d)))
    ensures AlwaysArrives(env, x, e) <==> AsksForCopy(Arrived(env, x).down)
  {
    AheadShape(env, x, |x.up|);
    if AsksForCopy(Arrived(env, x).down) {
      forall before: seq<Move>, after: seq<Move> | Deliveries(before) && Deliveries(after)
        ensures var x' := GoAll(env, Go(env, GoAll(env, x, before), Sees(e)), after);
                Idle(x') ==> Content(x'.cell.stored) == Content(x'.cell.held)
      {
        DeliveriesStayFine(env, x, d, before);
        HandledFine(env, GoAll(env, x, before), d, e, after);
      }
    } else {
      var before, after := RecreationCanFail(env, x, e);
      HeldStays(env, x, before);
      var x1 := Go(env, GoAll(env, x, before), Sees(e));
      MoveKeepsQueues(env, GoAll(env, x, before), Sees(e));
      HeldStays(env, x1, after);
      assert Content(GoAll(env, x1, after).cell.stored) != Content(GoAll(env, x1, after).cell.held);
    }
  }

  lemma HandledFine(env: Env, x: Duplex, d: Doc, e: Event, after: seq<Move>)
    requires CollisionFree(env) && env.strategy.Patch? && WellQueued(x) && Fine(env, Arrived(env, x), d)
    requires Deliveries(after)
    requires Regular(d) && (e == Modified(d) || (e == Added(d) && HonestChecksum(env, d)))
    ensures var x' := GoAll(env, Go(env, x, Sees(e)), after);
            Idle(x') ==> Content(x'.cell.stored) == Content(x'.cell.held)
  {
    var w, y := Watched(x, Some(d), [e]), Arrived(env, x);
    AheadShape(env, x, |x.up|);
    FineIsSafe(env, y, d, e);
    LastEventIff(env, w, after);
  }

  /** Seen again after a restart, deleted while the server asks, and created anew. */
  function RecreatedMeanwhile(seenAgain: Doc, created: Doc): seq<Move> {
    [Changes(Some(seenAgain)), Sees(Added(seenAgain)), Up, Changes(None), Sees(Deleted), Changes(Some(created))]
  }

  /** The failing states are reached from agreement, with nothing lost on the way. */
  lemma OverlappingExchangesLoseObject(env: Env, known: Doc, seenAgain: Doc, created: Doc)
    requires env.strategy.Patch? && env.hash(known) != ChecksumOf(env, seenAgain)
    ensures var start := Duplex(Cell(Some(known), None, Some(known)), [], []);
            var x := GoAll(env, start, RecreatedMeanwhile(seenAgain, created));
            && Agree(env, start.cell.shadow, start.cell.stored)
            && Gone(env, x) && x.cell.held == Some(created) && !AsksForCopy(Arrived(env, x).down)
  {
    var start := Duplex(Cell(Some(known), None, Some(known)), [], []);
    var get, deleted := Hop(false, 2, GetObject(Some(known))), Hop(true, 1, ObjectDeleted);
    var a, b := [Changes(Some(seenAgain)), Sees(Added(seenAgain)), Up],
        [Changes(None), Sees(Deleted), Changes(Some(created))];
    assert RecreatedMeanwhile(seenAgain, created) == a + b;
    GoOn(env, start, a, b);
    ThreeMoves(env, start, a[0], a[1], a[2]);
    var x3 := Duplex(Cell(Some(seenAgain), None, Some(known)), [], [get]);
    assert GoAll(env, start, a) == x3;
    ThreeMoves(env, x3, b[0], b[1], b[2]);
    var x := Duplex(Cell(Some(created), None, Some(known)), [deleted], [get]);
    assert GoAll(env, x3, b) == x;
    var y := Go(env, x, Up);
    assert Arrived(env, x) == y by { assert Ahead(env, y, 0) == y; }
    assert y.down == [get] && FirstQuestion([get]) == Some(get);
  }

  lemma ThreeMoves(env: Env, x: Duplex, a: Move, b: Move, c: Move)
    ensures GoAll(env, x, [a, b, c]) == Go(env, Go(env, Go(env, x, a), b), c)
  {
    assert [a, b, c][1..] == [b, c] && [b, c][1..] == [c] && [c][1..] == [];
    assert GoAll(env, Go(env, x, a), [b, c]) == GoAll(env, Go(env, Go(env, x, a), b), [c]);
  }

  // ---------------------------------------------------------------- reconciliation

  /** A client without a shadow that reads a question of the other kind first sends no copy for any of them. */
  lemma {:induction false} WrongQuestionHelpsNot(env: Env, down: seq<Hop>, q: Hop, d: Doc)
    requires env.strategy.Patch? && OnlyQuestions(down + [q]) && OnlyQuestions(down) && !AsksForCopy(down)
    ensures !Cured(env, None, None, down + [q], d)
    decreases down
  {
    assert (down + [q])[1..] == down[1..] + [q];
    if down[0].depth > MAX_DEPTH {
      WrongQuestionHelpsNot(env, down[1..], q, d);
    } else {
      NoCopyWithShadow(env, PutOrPatch(env, None, down[0].body.base, d).shadow, down[1..] + [q], d);
    }
  }

  /**
   Reconciliation drops the shadow and announces an object that the server lacks, with anything under way. In
   whatever order the rest is delivered, the object gets to the server if and only if the first question that
   the client will still read asks for a copy.
   */
  lemma ReconciliationSettlesIff(env: Env, x: Duplex, d: Doc, depth: nat, moves: seq<Move>)
    requires CollisionFree(env) && env.strategy.Patch? && WellQueued(x) && Arrived(env, x).cell.stored.None?
    requires x.cell.held == Some(d) && Regular(d) && depth <= MAX_DEPTH - 2 && Deliveries(moves)
    ensures var x' := GoAll(env, Go(env, x, Repairs(Verify, depth)), moves);
            Idle(x') ==> (Content(x'.cell.stored) == Content(Some(d)) <==> AsksForCopy(Arrived(env, x).down))
  {
    var m, y := Repairs(Verify, depth), Arrived(env, x);
    AheadShape(env, x, |x.up|);
    MoveKeepsQueues(env, x, m);
    ArrivedAfter(env, x, m);
    RepairIff(env, y, Verify, depth);
    DrainedIff(env, Go(env, x, m), moves);
    if AsksForCopy(y.down) {
      CopyIsAskedFor(env, y.down, depth + 1, d);
    } else {
      WrongQuestionHelpsNot(env, y.down, Hop(false, depth + 1, GetObject(None)), d);
    }
  }

  /** So it ends a deadlock with nothing under way, but not one in which an old question is still to be read. */
  lemma ReconciliationCanFail(env: Env, d: Doc, shadow: Doc, known: Doc, depth: nat, moves: seq<Move>)
    requires CollisionFree(env) && env.strategy.Patch? && Regular(d) && depth <= MAX_DEPTH - 2 && Deliveries(moves)
    ensures var idle := Duplex(Cell(Some(d), Some(shadow), None), [], []);
            var x' := GoAll(env, Go(env, idle, Repairs(Verify, depth)), moves);
            Deadlocked(idle) && (Idle(x') ==> Content(x'.cell.stored) == Content(Some(d)))
    ensures var asked := Duplex(Cell(Some(d), Some(shadow), None), [], [Hop(false, 2, GetObject(Some(known)))]);
            var x' := GoAll(env, Go(env, asked, Repairs(Verify, depth)), moves);
            Deadlocked(asked) && (Idle(x') ==> Content(x'.cell.stored) != Content(Some(d)))
  {
    var q := Hop(false, 2, GetObject(Some(known)));
    assert FirstQuestion([q]) == Some(q);
    ReconciliationSettlesIff(env, Duplex(Cell(Some(d), Some(shadow), None), [], []), d, depth, moves);
    ReconciliationSettlesIff(env, Duplex(Cell(Some(d), Some(shadow), None), [], [q]), d, depth, moves);
  }

  // ---------------------------------------------------------------- histories without additions

  function Bodies(up: seq<Hop>): seq<Body> {
    seq(|up|, i requires 0 <= i < |up| => up[i].body)
  }

  function PipeOf(x: Duplex): Pipe {
    Pipe(x.cell.shadow, Bodies(x.up), x.cell.stored, [])
  }

  /** The server has asked nothing and will not ask about anything under way. */
  ghost predicate Unasked(env: Env, x: Duplex, seen: Option<Doc>) {
    && x.down == []
    && (forall i | 0 <= i < |x.up| :: x.up[i].toServer && x.up[i].depth == 1 && !x.up[i].body.GetObject?)
    && Prediction(env, PipeOf(x), seen)
  }

  lemma ChangeStaysUnasked(env: Env, x: Duplex, seen: Option<Doc>, e: Event)
    requires Unasked(env, x, seen) && !e.Added? && Carried(env, x.cell.shadow, e) && Follows(seen, e)
    ensures Unasked(env, Go(env, x, Sees(e)), SeenAfter(seen, e))
  {
    EventKeepsPrediction(env, PipeOf(x), e, seen);
    var s, x' := ClientEvent(env, x.cell.shadow, e), Go(env, x, Sees(e));
    assert Bodies(x'.up) == Bodies(x.up) + ToSeq(s.message);
    assert PipeOf(x') == Announce(env, PipeOf(x), e);
  }

  lemma ArrivalStaysUnasked(env: Env, x: Duplex, seen: Option<Doc>)
    requires Unasked(env, x, seen)
    ensures Unasked(env, Go(env, x, Up), seen) && Go(env, x, Down) == x
  {
    if x.up != [] {
      ReceiveKeepsPrediction(env, PipeOf(x), seen);
      var x' := Go(env, x, Up);
      assert ServerStep(env, x.cell.stored, x.up[0].body).reply.None?;
      assert Bodies(x'.up) == Bodies(x.up)[1..];
      assert PipeOf(x') == Receive(env, PipeOf(x));
    }
  }

  lemma {:induction false} UnaskedArrival(env: Env, x: Duplex, seen: Option<Doc>)
    requires Unasked(env, x, seen)
    ensures Arrived(env, x).down == []
    decreases |x.up|
  {
    if x.up != [] {
      ArrivalStaysUnasked(env, x, seen);
      UnaskedArrival(env, Go(env, x, Up), seen);
    }
  }

  /** If only changes and deletions of the key were handled before, the new object always arrives. */
  lemma RecreationAfterChangesSettles(env: Env, x: Duplex, seen: Option<Doc>, d: Doc)
    requires CollisionFree(env) && env.strategy.Patch? && Unasked(env, x, seen) && Regular(d) && HonestChecksum(env, d)
    ensures var x' := Go(env, Go(env, x, Sees(Deleted)), Changes(Some(d)));
            AlwaysArrives(env, x', Added(d)) && AlwaysArrives(env, x', Modified(d))
  {
    var y := Go(env, x, Sees(Deleted));
    ChangeStaysUnasked(env, x, seen, Deleted);
    DeletionLeavesGone(env, x, Sees(Deleted));
    DeletionLeavesGone(env, y, Changes(Some(d)));
    UnaskedArrival(env, y, SeenAfter(seen, Deleted));
    ArrivedAfter(env, y, Changes(Some(d)));
    AheadShape(env, y, |y.up|);
    RecreationSettlesIff(env, Go(env, y, Changes(Some(d))), d, Added(d));
    RecreationSettlesIff(env, Go(env, y, Changes(Some(d))), d, Modified(d));
  }
}
