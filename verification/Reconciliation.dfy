/**
 Reconciliation: the server lists its objects with their versions, the client compares that with the
 cluster and starts one exchange for each key on which they differ. The exchanges run side by side.
 */
module Reconciliation {
  import opened Options
  import opened JsonMerge
  import opened Versions
  import opened Protocol
  import opened Exchange
  import opened World
  import opened Batches

  /** An object as listed from the cluster; filtered objects are never announced. */
  datatype Listed = Listed(doc: Doc, filtered: bool)

  /** The versions listed by the server; of several items for a key the last one counts. */
  function ListedVersions(items: seq<ChecksumItem>): map<Key, int> {
    if items == [] then map[]
    else ListedVersions(items[..|items| - 1])[items[|items| - 1].key := items[|items| - 1].version]
  }

  /** A batch without items is the batch that lists no version. */
  lemma NothingListed(items: seq<ChecksumItem>)
    ensures ListedVersions(items) == map[] <==> items == []
  {
    if items != [] {
      assert items[|items| - 1].key in ListedVersions(items);
    }
  }

  /** The last item for a key counts, and no other keys are listed. */
  lemma {:induction false} LastItemCounts(items: seq<ChecksumItem>, i: nat)
    requires i < |items| && forall j | i < j < |items| :: items[j].key != items[i].key
    ensures Get(ListedVersions(items), items[i].key) == Some(items[i].version)
  {
    if i < |items| - 1 {
      LastItemCounts(items[..|items| - 1], i);
    }
  }

  lemma {:induction false} ListedKeys(items: seq<ChecksumItem>, k: Key)
    ensures k in ListedVersions(items) <==> exists i | 0 <= i < |items| :: items[i].key == k
  {
    if items != [] {
      ListedKeys(items[..|items| - 1], k);
      assert items[|items| - 1].key == k || forall i | 0 <= i < |items| && items[i].key == k :: i < |items| - 1;
    }
  }

  /** The message that reconciliation sends for a key, if any. */
  function ActionFor(env: Env, listing: map<Key, Listed>, versions: map<Key, int>, k: Key): Option<Body> {
    if k in versions then
      if k !in listing then Some(ObjectDeleted)
      else if ToResourceVersion(RawVersion(listing[k].doc)) == versions[k] then None
      else Some(PutObject(ChecksumOf(env, listing[k].doc), listing[k].doc))
    else if k in listing && !listing[k].filtered then Some(NewChecksum(env.hash(listing[k].doc)))
    else None
  }

  /** The keys whose checksum is announced because the server lacks them. */
  function Announced(listing: map<Key, Listed>, versions: map<Key, int>): set<Key> {
    set k | k in listing && k !in versions && !listing[k].filtered
  }

  // ---------------------------------------------------------------- exchanges side by side

  /** Both sides, with at most one message under way for each key. */
  datatype Busy = Busy(world: World, flight: map<Key, Hop>)

  /** Any one of the messages under way is delivered. */
  function DeliverFor(env: Env, b: Busy, k: Key): Busy {
    if k !in b.flight then b
    else
      var (c, next) := Deliver(env, CellOf(b.world, k), b.flight[k]);
      Busy(SetCell(b.world, k, c), Put(b.flight, k, next))
  }

  function DeliverAll(env: Env, b: Busy, order: seq<Key>): Busy
    decreases order
  {
    if order == [] then b else DeliverAll(env, DeliverFor(env, b, order[0]), order[1..])
  }

  /** The state of a key after its own exchange has run alone. */
  function Outcome(env: Env, b: Busy, k: Key): Cell {
    if k in b.flight then Run(env, CellOf(b.world, k), b.flight[k]).0 else CellOf(b.world, k)
  }

  lemma OutcomeIsFixed(env: Env, b: Busy, j: Key, k: Key)
    ensures Outcome(env, DeliverFor(env, b, j), k) == Outcome(env, b, k)
  {
    if j in b.flight {
      var (c, next) := Deliver(env, CellOf(b.world, j), b.flight[j]);
      CellAfterSet(b.world, j, c, k);
      GetAfterPut(b.flight, j, next, k);
      var b' := DeliverFor(env, b, j);
      assert Get(b'.flight, k) == if k == j then next else Get(b.flight, k);
    }
  }

  /** Every order of deliveries that ends with nothing under way ends in the same state. */
  lemma {:induction false} OrderDoesNotMatter(env: Env, b: Busy, order: seq<Key>)
    requires DeliverAll(env, b, order).flight == map[]
    ensures forall k: Key :: CellOf(DeliverAll(env, b, order).world, k) == Outcome(env, b, k)
    decreases order
  {
    if order != [] {
      var b' := DeliverFor(env, b, order[0]);
      OrderDoesNotMatter(env, b', order[1..]);
      forall k: Key ensures CellOf(DeliverAll(env, b, order).world, k) == Outcome(env, b, k) {
        OutcomeIsFixed(env, b, order[0], k);
      }
    }
  }

  // ---------------------------------------------------------------- the repair

  /**
   Reconciliation with a batch of this depth: a batch that lists nothing is refused, otherwise the shadows of
   announced objects go and the actions are under way.
   */
  ghost function Reconciled(env: Env, w: World, listing: map<Key, Listed>, versions: map<Key, int>, depth: nat): Busy {
    if versions == map[] then Busy(w, map[])
    else
      var acting := set k | k in listing.Keys + versions.Keys && ActionFor(env, listing, versions, k).Some?;
      Busy(w.(shadow := w.shadow - Announced(listing, versions)),
           map k | k in acting :: Hop(true, depth + 1, ActionFor(env, listing, versions, k).value))
  }

  /** The listing is what the cluster holds, and the batch names exactly the server's keys. */
  ghost predicate Accurate(w: World, listing: map<Key, Listed>, versions: map<Key, int>) {
    && listing.Keys == w.cluster.Keys
    && (forall k: Key | k in listing :: listing[k].doc == w.cluster[k])
    && versions.Keys == w.server.Keys
  }

  lemma OutcomeOfReconciliation(env: Env, w: World, listing: map<Key, Listed>, versions: map<Key, int>, depth: nat,
      k: Key)
    requires Accurate(w, listing, versions) && depth <= 5
    ensures var c := Outcome(env, Reconciled(env, w, listing, versions, depth), k);
            && c.held == Get(w.cluster, k)
            && c.stored ==
               if k in w.server && k !in w.cluster then None
               else if k in w.server && ToResourceVersion(RawVersion(w.cluster[k])) != versions[k]
               then SaveIfNewer(env, Some(w.server[k]), w.cluster[k])
               else if k in w.server then Some(w.server[k])
               else if w.server != map[] && k in w.cluster && !listing[k].filtered then Some(w.cluster[k])
               else None
  {
    assert w.server == map[] <==> versions == map[] by {
      assert w.server == map[] <==> w.server.Keys == {};
      assert versions == map[] <==> versions.Keys == {};
    }
    if versions != map[] {
      var b := Reconciled(env, w, listing, versions, depth);
      var a := ActionFor(env, listing, versions, k);
      assert k in b.flight <==> a.Some?;
      if a.Some? && a.value.NewChecksum? {
        var c := CellOf(b.world, k);
        assert c.shadow.None?;
        MissingObjectRepair(env, c, a.value.checksum, depth + 1);
        RepairKeepsCluster(env, c, a.value.checksum, depth + 1);
      } else {
        assert CellOf(b.world, k).stored == Get(w.server, k);
      }
    }
  }

  lemma RepairKeepsCluster(env: Env, c: Cell, checksum: string, depth: nat)
    requires c.stored.None? && c.held.Some? && c.shadow.None? && depth <= MAX_DEPTH - 2
    ensures Run(env, c, Hop(true, depth, NewChecksum(checksum))).0.held == c.held
  {
    var get := Hop(false, depth + 1, GetObject(None));
    assert Deliver(env, c, Hop(true, depth, NewChecksum(checksum))) == (c, Some(get));
    var put := Hop(true, depth + 2, PutObject(ChecksumOf(env, c.held.value), c.held.value));
    var c' := Deliver(env, c, get).0;
    assert Deliver(env, c, get).1 == Some(put);
    assert Run(env, c', put).0.held == c.held;
  }

  /** The batch tells the true versions, all of them readable, and the server is not ahead. */
  ghost predicate NotAhead(w: World, versions: map<Key, int>) {
    forall k: Key | k in w.server && k in w.cluster ::
      && k in versions
      && Atoi(RawVersion(w.server[k])) == Some(versions[k])
      && Atoi(RawVersion(w.cluster[k])).Some?
      && versions[k] <= Atoi(RawVersion(w.cluster[k])).value
  }

  /** No server key that the cluster lacks, and every unfiltered key of the cluster. */
  ghost predicate Mirrors(server: map<Key, Doc>, cluster: map<Key, Doc>, listing: map<Key, Listed>) {
    && server.Keys <= cluster.Keys
    && (forall k: Key | k in cluster && k in listing && !listing[k].filtered :: k in server)
  }

  /** There is an object that the client would announce. */
  ghost predicate Announcing(listing: map<Key, Listed>) {
    exists k: Key :: k in listing && !listing[k].filtered
  }

  /**
   However the exchanges interleave: afterwards the server has no key that the cluster lacks and every
   unfiltered key of the cluster, if and only if it had some object before or there was none to announce.
   What was missing is there in full, and, when the batch told true versions that were not ahead, every
   common key has the cluster's version.
   */
  lemma ReconciliationRepairsReplica(env: Env, w: World, listing: map<Key, Listed>, versions: map<Key, int>,
      depth: nat, order: seq<Key>)
    requires Accurate(w, listing, versions) && depth <= 5
    requires DeliverAll(env, Reconciled(env, w, listing, versions, depth), order).flight == map[]
    ensures var w' := DeliverAll(env, Reconciled(env, w, listing, versions, depth), order).world;
            && w'.cluster == w.cluster && w'.server.Keys <= w.cluster.Keys
            && (Mirrors(w'.server, w.cluster, listing) <==> w.server != map[] || !Announcing(listing))
            && (forall k: Key | k in w'.server && k !in w.server :: w'.server[k] == w.cluster[k])
            && (NotAhead(w, versions) ==>
                 forall k: Key | k in w'.server ::
                   Atoi(RawVersion(w'.server[k])) == Atoi(RawVersion(w.cluster[k]))
                   && (w'.server[k] == w.cluster[k] || Get(w.server, k) == Some(w'.server[k])))
  {
    var b := Reconciled(env, w, listing, versions, depth);
    var w' := DeliverAll(env, b, order).world;
    OrderDoesNotMatter(env, b, order);
    forall k: Key
      ensures Get(w'.cluster, k) == Get(w.cluster, k)
      ensures k in w'.server ==> k in w.cluster
      ensures w.server != map[] && k in w.cluster && !listing[k].filtered ==> k in w'.server
      ensures w.server == map[] ==> k !in w'.server
      ensures k in w'.server && k !in w.server ==> w'.server[k] == w.cluster[k]
      ensures NotAhead(w, versions) && k in w'.server ==>
                && Atoi(RawVersion(w'.server[k])) == Atoi(RawVersion(w.cluster[k]))
                && (w'.server[k] == w.cluster[k] || Get(w.server, k) == Some(w'.server[k]))
    {
      OutcomeOfReconciliation(env, w, listing, versions, depth, k);
      assert CellOf(w', k) == Outcome(env, b, k);
    }
    SameLookups(w'.cluster, w.cluster);
  }

  /** So an empty server is never repaired: nothing is sent, and the cluster's object stays missing. */
  lemma EmptyServerStaysEmpty(env: Env, k: Key, d: Doc, depth: nat, order: seq<Key>)
    ensures var w := World(map[k := d], map[], map[]);
            var b := DeliverAll(env, Reconciled(env, w, map[k := Listed(d, false)], map[], depth), order);
            b == Busy(w, map[]) && !Mirrors(b.world.server, w.cluster, map[k := Listed(d, false)])
  {
    NothingToDeliver(env, World(map[k := d], map[], map[]), order);
    assert k in map[k := d];
  }

  lemma {:induction false} NothingToDeliver(env: Env, w: World, order: seq<Key>)
    ensures DeliverAll(env, Busy(w, map[]), order) == Busy(w, map[])
    decreases order
  {
    if order != [] { NothingToDeliver(env, w, order[1..]); }
  }
}
