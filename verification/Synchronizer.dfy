/** The receive loop of one side: depth guard, dispatch to the adapter, and replies one level deeper. */
module Synchronizer {
  import opened Options
  import opened Protocol
  import opened Exchange
  import opened Batches
  import opened Packets
  import MockAdapter

  class ServerSynchronizer {
    const adapter: MockAdapter.MockAdapter
    /** the depth in the context; none before the first message */
    var depth: Option<nat>
    /** what was handed to the outgoing pool */
    var sent: seq<Packet>

    constructor (adapter: MockAdapter.MockAdapter)
      ensures this.adapter == adapter && depth == None && sent == []
    {
      this.adapter := adapter;
      depth, sent := None, [];
    }

    /** A message goes out one level deeper than the context; without a context it starts at depth 1. */
    method Send(key: Key, body: Body)
      modifies this`sent
      ensures sent == old(sent) + [Single((if depth.Some? then depth.value else 0) + 1, key, body)]
    {
      var d: nat := if depth.Some? then depth.value else 0;
      sent := sent + [Single(d + 1, key, body)];
    }

    /** Sends what the adapter asked for through its callbacks since the given position. */
    method Forward(start: nat)
      requires start <= |adapter.calls|
      modifies this`sent
      ensures sent == old(sent) + AtDepth((if depth.Some? then depth.value else 0) + 1, adapter.calls[start..])
    {
      ghost var d: nat := (if depth.Some? then depth.value else 0) + 1;
      for i := start to |adapter.calls|
        invariant sent == old(sent) + AtDepth(d, adapter.calls[start..i])
      {
        Send(adapter.calls[i].0, adapter.calls[i].1);
        assert AtDepth(d, adapter.calls[start..i + 1]) ==
               AtDepth(d, adapter.calls[start..i]) + [Single(d, adapter.calls[i].0, adapter.calls[i].1)];
      }
      assert adapter.calls[start..|adapter.calls|] == adapter.calls[start..];
    }

    /** Hands one message to the adapter. */
    method Dispatch(p: Packet) returns (failed: bool)
      modifies adapter
      ensures adapter.View(failed) == ServeAll(adapter.env, old(adapter.View(false)), Messages(p))
    {
      match p
      case Batch(_, _, items) => failed := adapter.Batch(items);
      case Single(_, k, b) =>
        assert Messages(p)[..0] == [];
        failed := adapter.Handle(k, b);
    }

    /**
     A packet beyond the limit is dropped unread. Any other is handled, and everything sent because of
     it is exactly one level deeper than the packet, whatever was in the context before.
     */
    method Receive(p: Packet)
      modifies this, adapter
      ensures (adapter.resources, sent) ==
              (ServerReceives(adapter.env, old(adapter.resources), p).0,
               old(sent) + ServerReceives(adapter.env, old(adapter.resources), p).1)
      ensures depth == if p.depth > MAX_DEPTH then old(depth) else Some(p.depth)
    {
      if p.depth > MAX_DEPTH {
        assert sent == sent + [];
        return;
      }
      depth := Some(p.depth);
      ghost var before := adapter.View(false);
      var start := |adapter.calls|;
      var failed := Dispatch(p);
      RepliesAppend(adapter.env, before, Messages(p));
      Forward(start);
    }
  }

  /** Replies are only ever appended, and earlier ones do not influence anything. */
  lemma {:induction false} RepliesAppend(env: Env, s: Served, ms: seq<(Key, Body)>)
    ensures var alone := ServeAll(env, Served(s.resources, [], false), ms);
            var all := ServeAll(env, s, ms);
            && all.resources == alone.resources
            && all.replies == s.replies + alone.replies
            && all.replies[|s.replies|..] == alone.replies
  {
    if ms != [] {
      RepliesAppend(env, s, ms[..|ms| - 1]);
    }
  }
}
