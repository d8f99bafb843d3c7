/**
 The cooldown queue between the watch and the client: an event waits for its cooldown, and a later
 event for the same key takes its place.
 */
module Cooldown {
  import opened Options
  import opened JsonMerge
  import opened Versions
  import opened Protocol
  import opened Exchange
  import opened World
  import opened Histories
  import opened Coalescing

  datatype Op = Enqueue(key: Key, event: Event) | Expire(key: Key) | Stop

  datatype Queue = Queue(closed: bool, seen: map<Key, Event>, out: seq<(Key, Event)>)

  function Apply(q: Queue, op: Op): Queue {
    match op
    case Enqueue(k, e) => if q.closed then q else q.(seen := q.seen[k := e])
    case Expire(k) =>
      if k !in q.seen then q
      else q.(seen := q.seen - {k}, out := if q.closed then q.out else q.out + [(k, q.seen[k])])
    case Stop => q.(closed := true)
  }

  function ApplyAll(ops: seq<Op>): Queue {
    if ops == [] then Queue(false, map[], []) else Apply(ApplyAll(ops[..|ops| - 1]), ops[|ops| - 1])
  }

  function Enqueued(ops: seq<Op>): seq<(Key, Event)> {
    if ops == [] then []
    else
      var before, op := Enqueued(ops[..|ops| - 1]), ops[|ops| - 1];
      if op.Enqueue? then before + [(op.key, op.event)] else before
  }

  class CooldownQueue {
    var closed: bool
    var seenEvents: map<Key, Event>
    /** what was sent on the channel */
    var out: seq<(Key, Event)>

    function View(): Queue
      reads this
    {
      Queue(closed, seenEvents, out)
    }

    constructor ()
      ensures View() == ApplyAll([])
    {
      closed, seenEvents, out := false, map[], [];
    }

    method Enqueue(k: Key, e: Event)
      modifies this`seenEvents
      ensures View() == Apply(old(View()), Op.Enqueue(k, e))
    {
      if closed {
        return;
      }
      seenEvents := seenEvents[k := e];
    }

    /** The cooldown of a key is over: the cache drops it and the callback sends it, unless closed. */
    method Evict(k: Key)
      modifies this`seenEvents, this`out
      ensures View() == Apply(old(View()), Expire(k))
    {
      if k in seenEvents {
        if !closed {
          out := out + [(k, seenEvents[k])];
        }
        seenEvents := seenEvents - {k};
      }
    }

    /** The channel may be closed only once. */
    method Stop()
      requires !closed
      modifies this`closed
      ensures View() == Apply(old(View()), Op.Stop)
    {
      closed := true;
    }
  }

  // ---------------------------------------------------------------- subsequences

  predicate IsSub<T(==)>(a: seq<T>, b: seq<T>)
    decreases b
  {
    a == [] || (b != [] && ((a[0] == b[0] && IsSub(a[1..], b[1..])) || IsSub(a, b[1..])))
  }

  lemma {:induction false} SubSnoc<T>(a: seq<T>, b: seq<T>, e: T)
    requires IsSub(a, b)
    ensures IsSub(a + [e], b + [e])
    decreases b
  {
    var b' := b + [e];
    if b == [] {
      assert a == [] && (a + [e])[1..] == [];
    } else {
      assert b'[1..] == b[1..] + [e];
      if a == [] {
        assert IsSub([], b[1..]);
        SubSnoc([], b[1..], e);
        assert a + [e] == [] + [e];
      } else if a[0] == b[0] && IsSub(a[1..], b[1..]) {
        SubSnoc(a[1..], b[1..], e);
        assert (a + [e])[1..] == a[1..] + [e];
      } else {
        SubSnoc(a, b[1..], e);
      }
    }
  }

  lemma {:induction false} SubInit<T>(a: seq<T>, p: T, b: seq<T>)
    requires IsSub(a + [p], b)
    ensures IsSub(a, b)
    decreases b
  {
    if a != [] {
      if (a + [p])[0] == b[0] && IsSub((a + [p])[1..], b[1..]) {
        assert (a + [p])[1..] == a[1..] + [p];
        SubInit(a[1..], p, b[1..]);
      } else {
        SubInit(a, p, b[1..]);
      }
    }
  }

  // ---------------------------------------------------------------- coalescing

  /** For one key: what went out and what waits, against what came in. */
  predicate Keeps(through: seq<Event>, inp: seq<Event>) {
    && IsSub(through, inp)
    && (inp == [] <==> through == [])
    && (inp != [] ==> through[|through| - 1] == inp[|inp| - 1])
  }

  function Through(q: Queue, k: Key): seq<Event> {
    For(q.out, k) + ToSeq(Get(q.seen, k))
  }

  lemma EnqueueKeeps(q: Queue, inp: seq<(Key, Event)>, j: Key, e: Event, k: Key)
    requires !q.closed && Keeps(Through(q, k), For(inp, k))
    ensures Keeps(Through(Apply(q, Op.Enqueue(j, e)), k), For(inp + [(j, e)], k))
  {
    ForAppend(inp, [(j, e)], k);
    assert For([(j, e)], k) == if j == k then [e] else [];
    if j == k {
      var o := For(q.out, k);
      if k in q.seen { SubInit(o, q.seen[k], For(inp, k)); } else { assert o + [] == o; }
      SubSnoc(o, For(inp, k), e);
    } else {
      assert For(inp, k) + [] == For(inp, k);
    }
  }

  lemma ExpireKeeps(q: Queue, j: Key, k: Key)
    requires !q.closed
    ensures Through(Apply(q, Expire(j)), k) == Through(q, k)
  {
    if j in q.seen {
      ForAppend(q.out, [(j, q.seen[j])], k);
      assert For([(j, q.seen[j])], k) == if j == k then [q.seen[j]] else [];
    }
  }

  /** An open queue never drops the last event: what went out, then what waits, ends like the input. */
  lemma {:induction false} QueueKeepsLast(ops: seq<Op>, k: Key)
    requires Op.Stop !in ops
    ensures !ApplyAll(ops).closed && Keeps(Through(ApplyAll(ops), k), For(Enqueued(ops), k))
  {
    if ops != [] {
      var before, op := ops[..|ops| - 1], ops[|ops| - 1];
      assert forall o | o in before :: o in ops;
      assert op in ops;
      QueueKeepsLast(before, k);
      if op.Enqueue? {
        EnqueueKeeps(ApplyAll(before), Enqueued(before), op.key, op.event, k);
      } else {
        ExpireKeeps(ApplyAll(before), op.key, k);
      }
    }
  }

  /** What waits for a key is the latest that came in for it, so an event leaves the queue as news. */
  lemma WaitingIsLatest(ops: seq<Op>, k: Key)
    requires Op.Stop !in ops && k in ApplyAll(ops).seen
    ensures LastOf(Enqueued(ops), k) == Some(ApplyAll(ops).seen[k])
  {
    QueueKeepsLast(ops, k);
  }

  /** After Stop nothing more goes out. */
  lemma {:induction false} NothingAfterStop(before: seq<Op>, after: seq<Op>)
    ensures ApplyAll(before + [Op.Stop] + after).closed
    ensures ApplyAll(before + [Op.Stop] + after).out == ApplyAll(before).out
  {
    var ops := before + [Op.Stop] + after;
    if after == [] {
      assert ops[..|ops| - 1] == before;
    } else {
      assert ops[..|ops| - 1] == before + [Op.Stop] + after[..|after| - 1];
      NothingAfterStop(before, after[..|after| - 1]);
    }
  }

  // ---------------------------------------------------------------- growing versions survive

  /** s was announced no later than t. */
  predicate NoLater(s: Option<Doc>, t: Option<Doc>) {
    s.None? || s == t || (t.Some? && StringValueBigger(RawVersion(t.value), RawVersion(s.value)))
  }

  lemma {:induction false} GrowingFromEarlier(env: Env, s: Option<Doc>, t: Option<Doc>, events: seq<Event>)
    requires NoLater(s, t) && Growing(env, t, events)
    ensures Growing(env, s, events)
    decreases events
  {
    if events != [] {
      GrowingFromEarlier(env, SeenAfter(s, events[0]), SeenAfter(t, events[0]), events[1..]);
    }
  }

  lemma {:induction false} SubOfGrowing(env: Env, seen: Option<Doc>, a: seq<Event>, b: seq<Event>)
    requires IsSub(a, b) && Growing(env, seen, b)
    ensures Growing(env, seen, a)
    decreases b
  {
    if a != [] {
      if a[0] == b[0] && IsSub(a[1..], b[1..]) {
        SubOfGrowing(env, SeenAfter(seen, b[0]), a[1..], b[1..]);
      } else {
        SubOfGrowing(env, SeenAfter(seen, b[0]), a, b[1..]);
        GrowingFromEarlier(env, seen, SeenAfter(seen, b[0]), a);
      }
    }
  }

  /** Once nothing waits, what went out ends like what came in, and is a growing history if that was one. */
  lemma EmptiedQueue(env: Env, seen: map<Key, Doc>, ops: seq<Op>)
    requires Op.Stop !in ops && ApplyAll(ops).seen == map[]
    ensures SameLast(ApplyAll(ops).out, Enqueued(ops))
    ensures GrowingLog(env, seen, Enqueued(ops)) ==> GrowingLog(env, seen, ApplyAll(ops).out)
  {
    var out, inp := ApplyAll(ops).out, Enqueued(ops);
    forall k: Key
      ensures LastOf(out, k) == LastOf(inp, k)
      ensures Growing(env, Get(seen, k), For(inp, k)) ==> Growing(env, Get(seen, k), For(out, k))
    {
      QueueKeepsLast(ops, k);
      assert For(out, k) + [] == For(out, k);
      if Growing(env, Get(seen, k), For(inp, k)) {
        SubOfGrowing(env, Get(seen, k), For(out, k), For(inp, k));
      }
    }
  }

  /**
   Whatever the timing and however far the cluster is ahead: handling what the queue lets through leaves the
   server with the same objects, up to versions, as handling every event, if both handle only fresh changes
   and catch up with the cluster.
   */
  lemma CooldownPreservesMeaning(env: Env, w: World, seen: map<Key, Doc>, ops: seq<Op>,
                                 every: seq<(Key, Handling)>, coalesced: seq<(Key, Handling)>)
    requires CollisionFree(env) && ConsistentWorld(env, w, seen)
    requires Op.Stop !in ops && ApplyAll(ops).seen == map[]
    requires EventsOf(every) == Enqueued(ops) && ValidLog(env, w, seen, every)
    requires EventsOf(coalesced) == ApplyAll(ops).out && ValidLog(env, w, seen, coalesced)
    ensures SameContents(SettleWorld(env, w, coalesced).server, SettleWorld(env, w, every).server)
  {
    EmptiedQueue(env, seen, ops);
    CoalescingPreservesMeaning(env, w, seen, coalesced, every);
  }

  /** Every event handled while the cluster still holds what it announced. */
  function PromptLog(log: seq<(Key, Event)>): seq<(Key, Handling)> {
    seq(|log|, i requires 0 <= i < |log| => (log[i].0, Handling(HeldAfter(log[i].1), log[i].1)))
  }

  lemma {:induction false} PromptFor(log: seq<(Key, Event)>, k: Key)
    ensures For(PromptLog(log), k) == Promptly(For(log, k))
  {
    if log != [] {
      assert PromptLog(log)[1..] == PromptLog(log[1..]);
      PromptFor(log[1..], k);
      if log[0].0 == k {
        assert Promptly(For(log, k)) == [Handling(HeldAfter(log[0].1), log[0].1)] + Promptly(For(log[1..], k));
      }
    }
  }

  lemma PromptLogIsValid(env: Env, w: World, seen: map<Key, Doc>, log: seq<(Key, Event)>)
    requires CollisionFree(env) && ConsistentWorld(env, w, seen) && GrowingLog(env, seen, log)
    ensures ValidLog(env, w, seen, PromptLog(log))
  {
    forall k: Key
      ensures Valid(env, CellOf(w, k), Get(seen, k), For(PromptLog(log), k))
      ensures Untold(env, CellOf(w, k), For(PromptLog(log), k)) && CaughtUp(For(PromptLog(log), k))
    {
      PromptFor(log, k);
      assert Consistent(env, CellOf(w, k), Get(seen, k)) && Growing(env, Get(seen, k), For(log, k));
      PromptIsValid(env, CellOf(w, k), Get(seen, k), For(log, k));
    }
  }

  /** If the client keeps up with the queue, there is nothing to check: the queue holds only the latest of each key. */
  lemma PromptCooldownPreservesMeaning(env: Env, w: World, seen: map<Key, Doc>, ops: seq<Op>)
    requires CollisionFree(env) && ConsistentWorld(env, w, seen)
    requires Op.Stop !in ops && ApplyAll(ops).seen == map[] && GrowingLog(env, seen, Enqueued(ops))
    ensures SameContents(SettleWorld(env, w, PromptLog(ApplyAll(ops).out)).server,
        SettleWorld(env, w, PromptLog(Enqueued(ops))).server)
  {
    var out, inp := ApplyAll(ops).out, Enqueued(ops);
    EmptiedQueue(env, seen, ops);
    PromptLogIsValid(env, w, seen, out);
    PromptLogIsValid(env, w, seen, inp);
    assert EventsOf(PromptLog(out)) == out && EventsOf(PromptLog(inp)) == inp;
    CooldownPreservesMeaning(env, w, seen, ops, PromptLog(inp), PromptLog(out));
  }

  /** When the cooldown of a key is over, its latest event leaves an open queue, and nothing of it waits any more. */
  lemma ExpiredLeaves(ops: seq<Op>, k: Key)
    requires Op.Stop !in ops && For(Enqueued(ops), k) != []
    ensures var (p, q) := (ApplyAll(ops), ApplyAll(ops + [Expire(k)]));
            && k !in q.seen && LastOf(q.out, k) == LastOf(Enqueued(ops), k)
            && forall j | j != k :: Get(q.seen, j) == Get(p.seen, j) && For(q.out, j) == For(p.out, j)
  {
    var q, all := ApplyAll(ops), ops + [Expire(k)];
    assert all[..|all| - 1] == ops;
    QueueKeepsLast(all, k);
    assert Enqueued(all) == Enqueued(ops);
    assert k in q.seen ==> ApplyAll(all).out == q.out + [(k, q.seen[k])];
    assert For(ApplyAll(all).out, k) + [] == For(ApplyAll(all).out, k);
    forall j | j != k ensures For(ApplyAll(all).out, j) == For(q.out, j) {
      if k in q.seen {
        ForAppend(q.out, [(k, q.seen[k])], j);
        assert For([(k, q.seen[k])], j) == [];
      }
    }
  }

  /** A stopped queue takes nothing in. */
  lemma StoppedTakesNothing(q: Queue, k: Key, e: Event)
    ensures var s := Apply(q, Op.Stop);
            s.closed && s.seen == q.seen && s.out == q.out && Apply(s, Op.Enqueue(k, e)) == s
  {
  }
}
