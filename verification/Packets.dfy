/**
 Packets on the wire, the depth guard in front of both sides, and why every exchange ends: whatever
 the order of deliveries and however wide the batches.
 */
module Packets {
  import opened Options
  import opened JsonMerge
  import opened Protocol
  import opened Exchange
  import opened World
  import opened Batches
  import opened Reconciliation

  datatype BatchType = DefaultBatch | ReconciliationBatch | UnknownBatch

  datatype Packet =
    | Single(depth: nat, key: Key, body: Body)
    | Batch(depth: nat, batchType: BatchType, items: BatchItems)

  function Messages(p: Packet): seq<(Key, Body)> {
    match p
    case Single(_, k, b) => [(k, b)]
    case Batch(_, _, items) => items.Unrolled()
  }

  function AtDepth(depth: nat, log: seq<(Key, Body)>): seq<Packet> {
    seq(|log|, i requires 0 <= i < |log| => Single(depth, log[i].0, log[i].1))
  }

  /** The server handles every kind of batch alike. */
  function ServerReceives(env: Env, resources: map<Key, Doc>, p: Packet): (map<Key, Doc>, seq<Packet>) {
    if p.depth > MAX_DEPTH then (resources, [])
    else
      var s := ServeAll(env, Served(resources, [], false), Messages(p));
      (s.resources, AtDepth(p.depth + 1, s.replies))
  }

  /** The client sends the actions of a reconciliation in any order it likes. */
  ghost predicate ClientReceives(env: Env, w: World, listing: map<Key, Listed>, p: Packet, w': World,
      out: seq<(Key, Body)>) {
    if p.Batch? && p.batchType.UnknownBatch? then w' == w && out == []
    else if p.Batch? && p.batchType.ReconciliationBatch? then
      if p.items.checksums == [] then w' == w && out == []
      else
        var versions := ListedVersions(p.items.checksums);
        && w' == w.(shadow := w.shadow - Announced(listing, versions))
        && forall k: Key :: For(out, k) == ToSeq(ActionFor(env, listing, versions, k))
    else
      var s := HandleAll(env, Handled(w.cluster, w.shadow, [], false), Messages(p));
      w' == w.(cluster := s.cluster, shadow := s.shadow) && out == s.replies
  }

  // ---------------------------------------------------------------- deliveries

  /** Both sides and everything under way in either direction. */
  datatype Wire = Wire(world: World, up: seq<Packet>, down: seq<Packet>)

  function Without(q: seq<Packet>, i: nat): seq<Packet>
    requires i < |q|
  {
    q[..i] + q[i + 1..]
  }

  ghost predicate DeliversUp(env: Env, s: Wire, s': Wire, i: nat) {
    && i < |s.up|
    && var (resources, out) := ServerReceives(env, s.world.server, s.up[i]);
       s' == Wire(s.world.(server := resources), Without(s.up, i), s.down + out)
  }

  ghost predicate DeliversDown(env: Env, s: Wire, s': Wire, i: nat) {
    && i < |s.down|
    && s'.down == Without(s.down, i)
    && exists listing: map<Key, Listed>, out: seq<(Key, Body)> ::
         if s.down[i].depth > MAX_DEPTH then s'.world == s.world && s'.up == s.up
         else ClientReceives(env, s.world, listing, s.down[i], s'.world, out)
              && s'.up == s.up + AtDepth(s.down[i].depth + 1, out)
  }

  /** Some packet, wherever it stands in its queue, is delivered. */
  ghost predicate Delivers(env: Env, s: Wire, s': Wire) {
    exists i: nat :: DeliversUp(env, s, s', i) || DeliversDown(env, s, s', i)
  }

  // ---------------------------------------------------------------- depth

  /** The number of packets at one depth. */
  function Count(q: seq<Packet>, depth: nat): nat {
    if q == [] then 0 else (if q[0].depth == depth then 1 else 0) + Count(q[1..], depth)
  }

  function CountOn(s: Wire, depth: nat): nat {
    Count(s.up, depth) + Count(s.down, depth)
  }

  lemma {:induction false} CountAppend(a: seq<Packet>, b: seq<Packet>, e: nat)
    ensures Count(a + b, e) == Count(a, e) + Count(b, e)
  {
    if a == [] {
      assert a + b == b;
    } else {
      assert (a + b)[1..] == a[1..] + b;
      CountAppend(a[1..], b, e);
    }
  }

  lemma CountWithout(q: seq<Packet>, i: nat, e: nat)
    requires i < |q|
    ensures Count(q, e) == Count(Without(q, i), e) + if q[i].depth == e then 1 else 0
  {
    assert q == q[..i] + q[i..] && q[i..][1..] == q[i + 1..];
    CountAppend(q[..i], q[i..], e);
    CountAppend(q[..i], q[i + 1..], e);
  }

  lemma {:induction false} CountAtDepth(depth: nat, log: seq<(Key, Body)>, e: nat)
    ensures Count(AtDepth(depth, log), e) == if e == depth then |log| else 0
  {
    if log != [] {
      assert AtDepth(depth, log)[1..] == AtDepth(depth, log[1..]);
      CountAtDepth(depth, log[1..], e);
    }
  }

  /** Packet i has left one queue, and the replies to it have joined the other one level deeper. */
  predicate Moved(gone: seq<Packet>, gone': seq<Packet>, grown: seq<Packet>, grown': seq<Packet>, i: nat,
      replies: seq<(Key, Body)>) {
    && i < |gone| && gone' == Without(gone, i)
    && grown' == grown + AtDepth(gone[i].depth + 1, replies)
    && (gone[i].depth > MAX_DEPTH ==> replies == [])
  }

  lemma CountMoved(gone: seq<Packet>, gone': seq<Packet>, grown: seq<Packet>, grown': seq<Packet>, i: nat,
      replies: seq<(Key, Body)>, e: nat)
    requires Moved(gone, gone', grown, grown', i, replies)
    ensures Count(gone', e) + Count(grown', e) == Count(gone, e) + Count(grown, e)
              - (if e == gone[i].depth then 1 else 0) + (if e == gone[i].depth + 1 then |replies| else 0)
  {
    CountWithout(gone, i, e);
    CountAppend(grown, AtDepth(gone[i].depth + 1, replies), e);
    CountAtDepth(gone[i].depth + 1, replies, e);
  }

  lemma UpMoves(env: Env, s: Wire, s': Wire, i: nat) returns (replies: seq<(Key, Body)>)
    requires DeliversUp(env, s, s', i)
    ensures Moved(s.up, s'.up, s.down, s'.down, i, replies)
  {
    var p := s.up[i];
    var served := ServeAll(env, Served(s.world.server, [], false), Messages(p));
    replies := if p.depth <= MAX_DEPTH then served.replies else [];
  }

  lemma DownMoves(env: Env, s: Wire, s': Wire, i: nat) returns (replies: seq<(Key, Body)>)
    requires DeliversDown(env, s, s', i)
    ensures Moved(s.down, s'.down, s.up, s'.up, i, replies)
  {
    var p := s.down[i];
    replies := [];
    if p.depth <= MAX_DEPTH {
      var listing: map<Key, Listed>, out: seq<(Key, Body)> :|
        ClientReceives(env, s.world, listing, p, s'.world, out) && s'.up == s.up + AtDepth(p.depth + 1, out);
      replies := out;
    }
  }

  /** One packet gone from depth d, and n packets more at depth d + 1, if d is not too deep. */
  ghost predicate Deepens(s: Wire, s': Wire, d: nat, n: nat) {
    && (d > MAX_DEPTH ==> n == 0)
    && |s'.up| + |s'.down| == |s.up| + |s.down| - 1 + n
    && forall e: nat :: CountOn(s', e) == CountOn(s, e) - (if e == d then 1 else 0) + (if e == d + 1 then n else 0)
  }

  /** A delivery takes one packet away and adds packets exactly one level deeper, none beyond depth 9. */
  lemma DeliveryDeepens(env: Env, s: Wire, s': Wire) returns (d: nat, n: nat)
    requires Delivers(env, s, s')
    ensures Deepens(s, s', d, n)
  {
    var i: nat :| DeliversUp(env, s, s', i) || DeliversDown(env, s, s', i);
    var replies: seq<(Key, Body)>;
    if DeliversUp(env, s, s', i) {
      replies := UpMoves(env, s, s', i);
      d, n := s.up[i].depth, |replies|;
      forall e: nat { CountMoved(s.up, s'.up, s.down, s'.down, i, replies, e); }
    } else {
      replies := DownMoves(env, s, s', i);
      d, n := s.down[i].depth, |replies|;
      forall e: nat { CountMoved(s.down, s'.down, s.up, s'.up, i, replies, e); }
    }
  }

  /** The client starts exchanges of its own, at depth 1, and the cluster may have changed. */
  ghost predicate Starts(s: Wire, s': Wire) {
    s'.down == s.down && exists log: seq<(Key, Body)> :: s'.up == s.up + AtDepth(1, log)
  }

  predicate Shallow(q: seq<Packet>) {
    forall i | 0 <= i < |q| :: q[i].depth <= 9
  }

  lemma StepStaysShallow(env: Env, s: Wire, s': Wire)
    requires (Delivers(env, s, s') || Starts(s, s')) && Shallow(s.up) && Shallow(s.down)
    ensures Shallow(s'.up) && Shallow(s'.down)
  {
    if i: nat :| DeliversUp(env, s, s', i) {
      var replies := UpMoves(env, s, s', i);
    } else if i: nat :| DeliversDown(env, s, s', i) {
      var replies := DownMoves(env, s, s', i);
    }
  }

  /** Nothing deeper than 9 is ever under way, whatever starts and in whichever order things are delivered. */
  lemma {:induction false} DepthStaysBounded(env: Env, run: seq<Wire>, i: nat)
    requires i < |run| && Shallow(run[0].up) && Shallow(run[0].down)
    requires forall j | 0 <= j < |run| - 1 :: Delivers(env, run[j], run[j + 1]) || Starts(run[j], run[j + 1])
    ensures Shallow(run[i].up) && Shallow(run[i].down)
  {
    if i > 0 {
      DepthStaysBounded(env, run, i - 1);
      assert Delivers(env, run[i - 1], run[i]) || Starts(run[i - 1], run[i]) by { assert 0 <= i - 1 < |run| - 1; }
      StepStaysShallow(env, run[i - 1], run[i]);
    }
  }

  // ---------------------------------------------------------------- termination

  ghost predicate KeepsDelivering(env: Env, run: nat -> Wire) {
    forall j: nat :: Delivers(env, run(j), run(j + 1))
  }

  /** The number of packets at each depth, the shallowest first, goes down in lexicographic order. */
  lemma {:induction false} NoEndlessRun(env: Env, run: nat -> Wire, j: nat, s: Wire)
    requires KeepsDelivering(env, run) && s == run(j)
    ensures false
    decreases CountOn(s, 0), CountOn(s, 1), CountOn(s, 2), CountOn(s, 3), CountOn(s, 4),
              CountOn(s, 5), CountOn(s, 6), CountOn(s, 7), CountOn(s, 8), |s.up| + |s.down|
  {
    assert Delivers(env, run(j), run(j + 1));
    var d, n := DeliveryDeepens(env, s, run(j + 1));
    NoEndlessRun(env, run, j + 1, run(j + 1));
  }

  /** Deliveries come to an end: no run of them goes on forever. */
  lemma EveryDrainStops(env: Env, run: nat -> Wire)
    ensures exists j: nat :: !Delivers(env, run(j), run(j + 1))
  {
    if KeepsDelivering(env, run) {
      NoEndlessRun(env, run, 0, run(0));
    }
  }
}
