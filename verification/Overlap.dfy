/**
 Exchanges about one key that overlap, over a link that is ordered and loses nothing in either direction.
 The cluster changes on its own; the client handles the event later, and answers questions in between
 from what the cluster holds at that moment.
 */
module Overlap {
  import opened Options
  import opened JsonMerge
  import opened Protocol
  import opened Exchange

  /** Both sides and the messages on their way up to the server and down to the client. */
  datatype Duplex = Duplex(cell: Cell, up: seq<Hop>, down: seq<Hop>)

  /** What reconciliation sends for a key: a deletion, the listed object, or its checksum. */
  datatype Repair = Remove | Replace | Verify

  /** The cluster's object changes, the client handles an event or reconciles the key, or the oldest message arrives. */
  datatype Move = Changes(current: Option<Doc>) | Sees(event: Event) | Repairs(repair: Repair, depth: nat) | Up | Down

  predicate IsDelivery(m: Move) {
    m.Up? || m.Down?
  }

  function Append(q: seq<Hop>, h: Option<Hop>): seq<Hop> {
    if h.Some? then q + [h.value] else q
  }

  /** Only an object that is away is removed, and only one that is there is replaced or announced. */
  function RepairMessage(env: Env, held: Option<Doc>, r: Repair): Option<Body> {
    match r
    case Remove => if held.None? then Some(ObjectDeleted) else None
    case Replace => if held.Some? then Some(PutObject(ChecksumOf(env, held.value), held.value)) else None
    case Verify => if held.Some? then Some(NewChecksum(env.hash(held.value))) else None
  }

  /** The shadow of an object that is announced is dropped. */
  function ShadowAfterRepair(c: Cell, r: Repair): Option<Doc> {
    if r.Verify? && c.held.Some? then None else c.shadow
  }

  function Go(env: Env, x: Duplex, m: Move): Duplex {
    match m
    case Changes(d) => x.(cell := x.cell.(held := d))
    case Sees(e) =>
      var s := ClientEvent(env, x.cell.shadow, e);
      Duplex(x.cell.(shadow := s.shadow),
             if s.message.Some? then x.up + [Hop(true, 1, s.message.value)] else x.up, x.down)
    case Repairs(r, depth) =>
      var b := RepairMessage(env, x.cell.held, r);
      Duplex(x.cell.(shadow := ShadowAfterRepair(x.cell, r)),
             if b.Some? then x.up + [Hop(true, depth, b.value)] else x.up, x.down)
    case Up =>
      if x.up == [] then x
      else
        var (c, r) := Deliver(env, x.cell, x.up[0]);
        Duplex(c, x.up[1..], Append(x.down, r))
    case Down =>
      if x.down == [] then x
      else
        var (c, r) := Deliver(env, x.cell, x.down[0]);
        Duplex(c, Append(x.up, r), x.down[1..])
  }

  function GoAll(env: Env, x: Duplex, moves: seq<Move>): Duplex
    decreases moves
  {
    if moves == [] then x else GoAll(env, Go(env, x, moves[0]), moves[1..])
  }

  lemma {:induction false} GoOn(env: Env, x: Duplex, a: seq<Move>, b: seq<Move>)
    ensures GoAll(env, x, a + b) == GoAll(env, GoAll(env, x, a), b)
    decreases a
  {
    if a == [] {
      assert a + b == b;
    } else {
      assert (a + b)[1..] == a[1..] + b;
      GoOn(env, Go(env, x, a[0]), a[1..], b);
    }
  }

  // ---------------------------------------------------------------- what is under way

  predicate OnlyReports(up: seq<Hop>) {
    forall i | 0 <= i < |up| :: up[i].toServer && !up[i].body.GetObject?
  }

  predicate OnlyQuestions(down: seq<Hop>) {
    forall j | 0 <= j < |down| :: !down[j].toServer && down[j].body.GetObject?
  }

  /** Reports go up and questions come down; nothing else is ever under way. */
  predicate WellQueued(x: Duplex) {
    OnlyReports(x.up) && OnlyQuestions(x.down)
  }

  predicate Idle(x: Duplex) {
    x.up == [] && x.down == []
  }

  lemma MoveKeepsQueues(env: Env, x: Duplex, m: Move)
    requires WellQueued(x)
    ensures WellQueued(Go(env, x, m))
    ensures m.Up? && x.up != [] ==> Go(env, x, m).up == x.up[1..]
    ensures !m.Changes? ==> Go(env, x, m).cell.held == x.cell.held
  {
  }

  // ---------------------------------------------------------------- looking ahead

  /** The state once the n oldest reports have arrived. */
  function Ahead(env: Env, x: Duplex, n: nat): Duplex
    decreases n
  {
    if n == 0 then x else Ahead(env, Go(env, x, Up), n - 1)
  }

  /** The state once every report under way has arrived. */
  function Arrived(env: Env, x: Duplex): Duplex {
    Ahead(env, x, |x.up|)
  }

  /** Arrivals at the server do not interfere with what happens in the cluster and at the client. */
  lemma UpCommutes(env: Env, x: Duplex, m: Move)
    requires WellQueued(x) && x.up != [] && !m.Up? && (m.Down? ==> x.down != [])
    ensures Go(env, Go(env, x, Up), m) == Go(env, Go(env, x, m), Up)
  {
    var a, b := Go(env, Go(env, x, Up), m), Go(env, Go(env, x, m), Up);
    assert a.cell == b.cell;
    assert a.up == b.up;
    assert a.down == b.down;
  }

  lemma {:induction false} AheadCommutes(env: Env, x: Duplex, m: Move, n: nat)
    requires WellQueued(x) && n <= |x.up| && !m.Up? && (m.Down? ==> x.down != [])
    ensures Go(env, Ahead(env, x, n), m) == Ahead(env, Go(env, x, m), n)
    decreases n
  {
    if n > 0 {
      MoveKeepsQueues(env, x, Up);
      AheadCommutes(env, Go(env, x, Up), m, n - 1);
      UpCommutes(env, x, m);
    }
  }

  lemma {:induction false} AheadShape(env: Env, x: Duplex, n: nat)
    requires WellQueued(x) && n <= |x.up|
    ensures var y := Ahead(env, x, n);
            && WellQueued(y) && y.up == x.up[n..] && y.cell.held == x.cell.held && y.cell.shadow == x.cell.shadow
            && |x.down| <= |y.down| && y.down[..|x.down|] == x.down
    decreases n
  {
    if n > 0 {
      MoveKeepsQueues(env, x, Up);
      AheadShape(env, Go(env, x, Up), n - 1);
    }
  }

  lemma {:induction false} AheadTwice(env: Env, x: Duplex, n: nat, m: nat)
    ensures Ahead(env, Ahead(env, x, n), m) == Ahead(env, x, n + m)
    decreases n
  {
    if n > 0 {
      AheadTwice(env, Go(env, x, Up), n - 1, m);
    }
  }

  /** To see where a move leads, let everything under way arrive first. */
  lemma ArrivedAfter(env: Env, x: Duplex, m: Move)
    requires WellQueued(x) && (m.Down? ==> x.down != [])
    ensures m.Up? ==> Arrived(env, Go(env, x, m)) == Arrived(env, x)
    ensures !m.Up? ==> Arrived(env, Go(env, x, m)) == Arrived(env, Go(env, Arrived(env, x), m))
  {
    var x', n := Go(env, x, m), |x.up|;
    if m.Up? {
      MoveKeepsQueues(env, x, m);
    } else {
      AheadShape(env, x, n);
      AheadCommutes(env, x, m, n);
      AheadTwice(env, x', n, |x'.up| - n);
      assert |Go(env, Arrived(env, x), m).up| == |x'.up| - n by {
        if m.Down? { assert Arrived(env, x).down[0] == x.down[0]; }
      }
    }
  }

  // ---------------------------------------------------------------- deliveries end

  /** What is left to deliver, each message with the answers it may still cause. */
  function Work(q: seq<Hop>): nat {
    if q == [] then 0 else (if q[0].depth > MAX_DEPTH then 1 else MAX_DEPTH + 2 - q[0].depth) + Work(q[1..])
  }

  lemma {:induction false} WorkAppend(q: seq<Hop>, h: Hop)
    ensures Work(q + [h]) == Work(q) + Work([h])
  {
    if q == [] {
      assert q + [h] == [h];
    } else {
      assert (q + [h])[1..] == q[1..] + [h];
      WorkAppend(q[1..], h);
    }
  }

  lemma DeliveryWorks(env: Env, x: Duplex, m: Move)
    requires (m.Up? && x.up != []) || (m.Down? && x.down != [])
    ensures Work(Go(env, x, m).up) + Work(Go(env, x, m).down) < Work(x.up) + Work(x.down)
  {
    var h := if m.Up? then x.up[0] else x.down[0];
    var r := Deliver(env, x.cell, h).1;
    if r.Some? {
      WorkAppend(if m.Up? then x.down else x.up, r.value);
    }
  }

  /** Some order of deliveries always leaves nothing under way. */
  lemma {:induction false} Drains(env: Env, x: Duplex) returns (moves: seq<Move>)
    ensures forall m | m in moves :: IsDelivery(m)
    ensures Idle(GoAll(env, x, moves))
    decreases Work(x.up) + Work(x.down)
  {
    if Idle(x) {
      moves := [];
    } else {
      var m := if x.up != [] then Up else Down;
      DeliveryWorks(env, x, m);
      var rest := Drains(env, Go(env, x, m));
      moves := [m] + rest;
      assert moves[1..] == rest;
    }
  }

  // ---------------------------------------------------------------- an object that never arrives

  /** The server has nothing, the client has a shadow, and no copy under way gets through. */
  predicate Deadlocked(x: Duplex) {
    && x.cell.stored.None? && x.cell.shadow.Some?
    && (forall i | 0 <= i < |x.up| ::
          x.up[i].toServer && (x.up[i].depth > MAX_DEPTH || x.up[i].body.PatchObject? || x.up[i].body.NewChecksum?))
    && OnlyQuestions(x.down)
  }

  lemma DeadlockStays(env: Env, x: Duplex, m: Move)
    requires env.strategy.Patch? && Deadlocked(x) && m != Sees(Deleted) && !m.Repairs?
    ensures Deadlocked(Go(env, x, m))
  {
  }

  /** Until a deletion is handled or the key is reconciled, no changes, additions or deliveries help. */
  lemma {:induction false} DeadlockIsForever(env: Env, x: Duplex, moves: seq<Move>)
    requires env.strategy.Patch? && Deadlocked(x) && forall m | m in moves :: m != Sees(Deleted) && !m.Repairs?
    ensures Deadlocked(GoAll(env, x, moves))
    decreases moves
  {
    if moves != [] {
      assert moves[0] in moves && forall m | m in moves[1..] :: m in moves;
      DeadlockStays(env, x, moves[0]);
      DeadlockIsForever(env, Go(env, x, moves[0]), moves[1..]);
    }
  }
}
