/** What a packet does on arrival: it is handled as the exchange rules say, and only too deep ones are ignored. */
module PacketEffects {
  import opened Options
  import opened JsonMerge
  import opened Protocol
  import opened Exchange
  import opened World
  import opened Batches
  import opened Reconciliation
  import opened ShadowPrediction
  import opened Redelivery
  import opened BatchOrder
  import opened Packets
  import InClusterClient

  function Singles(h: Option<Hop>, k: Key): seq<Packet> {
    if h.Some? then [Single(h.value.depth, k, h.value.body)] else []
  }

  lemma ServeOne(env: Env, resources: map<Key, Doc>, k: Key, b: Body)
    ensures var s := ServeAll(env, Served(resources, [], false), [(k, b)]);
            var o := ServerStep(env, Get(resources, k), b);
            s.resources == Put(resources, k, o.stored) && s.replies == Tag(k, o.reply)
  {
    assert [(k, b)][..0] == [];
    assert ServeAll(env, Served(resources, [], false), [(k, b)])
           == Serve(env, ServeAll(env, Served(resources, [], false), []), (k, b));
    var r := ServerStep(env, Get(resources, k), b).reply;
    assert [] + Tag(k, r) == Tag(k, r);
  }

  /**
   A single message to the server: its key ends as the exchange rule says, all other keys stay as they are, and
   exactly the reply of that rule goes out, one level deeper; beyond the limit nothing happens.
   */
  lemma ServerDeliversSingle(env: Env, w: World, depth: nat, k: Key, b: Body, j: Key)
    ensures var (resources, out) := ServerReceives(env, w.server, Single(depth, k, b));
            var (c, r) := Deliver(env, CellOf(w, k), Hop(true, depth, b));
            && CellOf(w.(server := resources), j) == (if j == k then c else CellOf(w, j))
            && out == Singles(r, k)
  {
    if depth <= MAX_DEPTH {
      ServeOne(env, w.server, k, b);
      GetAfterPut(w.server, k, ServerStep(env, Get(w.server, k), b).stored, j);
    }
  }

  /** A get is answered with the whole object and no checksum. */
  lemma ServerAnswersGet(env: Env, k: Key, d: Doc, base: Option<Doc>)
    ensures ServerReceives(env, map[k := d], Single(1, k, GetObject(base))) ==
            (map[k := d], [Single(2, k, PutObject("", d))])
  {
    ServeOne(env, map[k := d], k, GetObject(base));
    ServerDeliversSingle(env, World(map[], map[], map[k := d]), 1, k, GetObject(base), k);
    assert Put(map[k := d], k, Some(d)) == map[k := d];
  }

  /** A put of an object that the server lacks is stored, and a checksum of one is answered by a request for it. */
  lemma ServerStoresAndAsks(env: Env, k: Key, d: Doc, checksum: string)
    ensures ServerReceives(env, map[], Single(1, k, PutObject(checksum, d))) == (map[k := d], [])
    ensures ServerReceives(env, map[], Single(1, k, NewChecksum(checksum))) == (map[], [Single(2, k, GetObject(None))])
  {
    ServeOne(env, map[], k, PutObject(checksum, d));
    ServeOne(env, map[], k, NewChecksum(checksum));
    ServerDeliversSingle(env, World(map[], map[], map[]), 1, k, PutObject(checksum, d), k);
    ServerDeliversSingle(env, World(map[], map[], map[]), 1, k, NewChecksum(checksum), k);
    assert Put<Key, Doc>(map[], k, Some(d)) == map[k := d];
    assert Put<Key, Doc>(map[], k, None) == map[];
  }

  /**
   A batch to the server: each key ends as its own messages lead to, and the answers to them go out in order, each
   one level deeper than the batch.
   */
  lemma ServerDeliversBatch(env: Env, resources: map<Key, Doc>, p: Packet) returns (log: seq<(Key, Body)>)
    requires p.depth <= MAX_DEPTH
    ensures var (resources', out) := ServerReceives(env, resources, p);
            && out == AtDepth(p.depth + 1, log)
            && forall k: Key ::
                 && Get(resources', k) == Predicted(env, Get(resources, k), For(Messages(p), k))
                 && For(log, k) == AnswersOf(env, Get(resources, k), For(Messages(p), k))
  {
    var s := Served(resources, [], false);
    log := ServeAll(env, s, Messages(p)).replies;
    forall k: Key
      ensures Get(ServeAll(env, s, Messages(p)).resources, k) == Predicted(env, Get(resources, k), For(Messages(p), k))
      ensures For(log, k) == AnswersOf(env, Get(resources, k), For(Messages(p), k))
    {
      ServeAllAt(env, s, Messages(p), k);
      RepliesAt(env, s, Messages(p), k);
      assert For(s.replies, k) == [];
    }
  }

  // ---------------------------------------------------------------- the client

  /** A single message to the client has the effect and the reply of the exchange rule, and touches no other key. */
  lemma ClientDeliversSingle(env: Env, w: World, listing: map<Key, Listed>, depth: nat, k: Key, b: Body,
                             w': World, out: seq<(Key, Body)>, j: Key)
    requires depth <= MAX_DEPTH && ClientReceives(env, w, listing, Single(depth, k, b), w', out)
    ensures var (c, r) := Deliver(env, CellOf(w, k), Hop(false, depth, b));
            && CellOf(w', j) == (if j == k then c else CellOf(w, j))
            && AtDepth(depth + 1, out) == Singles(r, k)
  {
    HandleOne(env, w, k, b);
    var o := ClientStep(env, Get(w.cluster, k), Get(w.shadow, k), b);
    GetAfterPut(w.cluster, k, o.held, j);
    GetAfterPut(w.shadow, k, o.shadow, j);
  }

  lemma HandleOne(env: Env, w: World, k: Key, b: Body)
    ensures var s := HandleAll(env, Handled(w.cluster, w.shadow, [], false), [(k, b)]);
            var o := ClientStep(env, Get(w.cluster, k), Get(w.shadow, k), b);
            && s.cluster == Put(w.cluster, k, o.held) && s.shadow == Put(w.shadow, k, o.shadow)
            && s.replies == Tag(k, o.reply)
  {
    var s := Handled(w.cluster, w.shadow, [], false);
    assert [(k, b)][..0] == [];
    assert HandleAll(env, s, [(k, b)]) == Handle(env, HandleAll(env, s, []), (k, b));
    var r := ClientStep(env, Get(w.cluster, k), Get(w.shadow, k), b).reply;
    assert [] + Tag(k, r) == Tag(k, r);
  }

  // ---------------------------------------------------------------- the wire

  /** Whichever packet arrives at the server, and wherever it stood in the queue, its reply joins the way down. */
  lemma WireDeliversUp(env: Env, s: Wire, s': Wire, i: nat, depth: nat, k: Key, b: Body, j: Key)
    requires DeliversUp(env, s, s', i) && s.up[i] == Single(depth, k, b)
    ensures var (c, r) := Deliver(env, CellOf(s.world, k), Hop(true, depth, b));
            && CellOf(s'.world, j) == (if j == k then c else CellOf(s.world, j))
            && s'.up == s.up[..i] + s.up[i + 1..] && s'.down == s.down + Singles(r, k)
  {
    ServerDeliversSingle(env, s.world, depth, k, b, j);
  }

  /** The same at the client. */
  lemma WireDeliversDown(env: Env, s: Wire, s': Wire, i: nat, depth: nat, k: Key, b: Body, j: Key)
    requires DeliversDown(env, s, s', i) && s.down[i] == Single(depth, k, b)
    ensures var (c, r) := Deliver(env, CellOf(s.world, k), Hop(false, depth, b));
            && CellOf(s'.world, j) == (if j == k then c else CellOf(s.world, j))
            && s'.down == s.down[..i] + s.down[i + 1..] && s'.up == s.up + Singles(r, k)
  {
    if depth <= MAX_DEPTH {
      var listing: map<Key, Listed>, out: seq<(Key, Body)> :|
        && ClientReceives(env, s.world, listing, s.down[i], s'.world, out)
        && s'.up == s.up + AtDepth(depth + 1, out);
      ClientDeliversSingle(env, s.world, listing, depth, k, b, s'.world, out, j);
    }
  }

  /** A default batch to the client: each key ends as its own messages lead to, and their answers are sent in order. */
  lemma ClientDeliversBatch(env: Env, w: World, listing: map<Key, Listed>, p: Packet, w': World,
                            out: seq<(Key, Body)>, k: Key)
    requires p.Single? || p.batchType.DefaultBatch?
    requires ClientReceives(env, w, listing, p, w', out)
    ensures w'.server == w.server
    ensures Ended(Get(w'.cluster, k), Get(w'.shadow, k), For(out, k)) ==
            ClientRun(env, Ended(Get(w.cluster, k), Get(w.shadow, k), []), For(Messages(p), k))
  {
    HandleAllAt(env, Handled(w.cluster, w.shadow, [], false), Messages(p), k);
  }

  /** A reconciliation batch with items sends each key its one action, and drops the shadows of what it announces. */
  lemma ClientReconciles(env: Env, w: World, listing: map<Key, Listed>, depth: nat, items: BatchItems, w': World,
                         out: seq<(Key, Body)>, k: Key)
    requires items.checksums != [] && ClientReceives(env, w, listing, Batch(depth, ReconciliationBatch, items), w', out)
    ensures var action := ActionFor(env, listing, ListedVersions(items.checksums), k);
            && For(out, k) == ToSeq(action)
            && w'.cluster == w.cluster && w'.server == w.server
            && Get(w'.shadow, k) == if action.Some? && action.value.NewChecksum? then None else Get(w.shadow, k)
  {
  }

  /** An unknown kind of batch and a reconciliation without items are refused: nothing changes, nothing is sent. */
  lemma ClientRefuses(env: Env, w: World, listing: map<Key, Listed>, p: Packet, w': World, out: seq<(Key, Body)>)
    requires p.Batch? && ClientReceives(env, w, listing, p, w', out)
    requires p.batchType.UnknownBatch? || (p.batchType.ReconciliationBatch? && p.items.checksums == [])
    ensures w' == w && out == []
  {
  }

  /** The client can receive every packet: handling is never stuck. */
  lemma ClientAlwaysReceives(env: Env, w: World, listing: map<Key, Listed>, p: Packet)
    returns (w': World, out: seq<(Key, Body)>)
    ensures ClientReceives(env, w, listing, p, w', out)
  {
    if p.Batch? && (p.batchType.UnknownBatch? || (p.batchType.ReconciliationBatch? && p.items.checksums == [])) {
      w', out := w, [];
    } else if p.Batch? && p.batchType.ReconciliationBatch? {
      var versions := ListedVersions(p.items.checksums);
      w' := w.(shadow := w.shadow - Announced(listing, versions));
      out := ActionsOf(env, listing, versions, listing.Keys + versions.Keys);
      InClusterClient.ActedOnAll(env, listing, versions, [], out, listing.Keys + versions.Keys);
      forall k: Key ensures For(out, k) == ToSeq(ActionFor(env, listing, versions, k)) {
        assert For<Body>([], k) == [];
      }
    } else {
      var s := HandleAll(env, Handled(w.cluster, w.shadow, [], false), Messages(p));
      w', out := w.(cluster := s.cluster, shadow := s.shadow), s.replies;
    }
  }

  lemma {:induction false} ActionsOf(env: Env, listing: map<Key, Listed>, versions: map<Key, int>, keys: set<Key>)
    returns (out: seq<(Key, Body)>)
    ensures InClusterClient.Acted(env, listing, versions, [], out, keys)
    decreases keys
  {
    if keys == {} {
      out := [];
    } else {
      var k :| k in keys;
      var before := ActionsOf(env, listing, versions, keys - {k});
      InClusterClient.ActOnce(env, listing, versions, [], before, keys - {k}, k);
      out := before + Tag(k, ActionFor(env, listing, versions, k));
      assert keys - {k} + {k} == keys;
    }
  }
}
