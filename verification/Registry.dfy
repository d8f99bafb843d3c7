/**
 The backend's registry of connected clients: several connections may compete for the same account
 and cluster, and start and stop in any order.
 */
module Registry {
  import opened Options
  import opened Keys

  /** `details` stands for the fields that are only passed through. */
  datatype ClientId = ClientId(account: string, cluster: string, connection: string, time: int, syncVersion: string,
      details: string)

  function KeyFor(id: ClientId): string {
    id.account + "/" + id.cluster
  }

  function ConnectionString(id: ClientId): string {
    id.account + "/" + id.cluster + "/" + id.connection
  }

  /** Both are joined like all other keys. */
  lemma KeysAreJoined(id: ClientId)
    ensures KeyFor(id) == Join([id.account, id.cluster])
    ensures ConnectionString(id) == Join([id.account, id.cluster, id.connection])
  {
    JoinAppend([id.account], [id.cluster]);
    JoinAppend([id.account, id.cluster], [id.connection]);
    assert [id.account] + [id.cluster] == [id.account, id.cluster];
    assert [id.account, id.cluster] + [id.connection] == [id.account, id.cluster, id.connection];
  }

  /** Callbacks are told apart by a number; a client object by the connection it was made for. */
  datatype State = State(
    connections: map<string, ClientId>, clients: map<string, ClientId>, callbacks: map<string, int>, gauge: int)

  datatype Op = Register(id: ClientId, callbacks: int) | Start(id: ClientId) | Stop(id: ClientId)

  /** A different connection is registered, and it is newer. */
  predicate Outranked(s: State, id: ClientId) {
    && KeyFor(id) in s.connections
    && ConnectionString(s.connections[KeyFor(id)]) != ConnectionString(id)
    && s.connections[KeyFor(id)].time > id.time
  }

  function Do(s: State, op: Op): State {
    var k := KeyFor(op.id);
    match op
    case Register(_, cb) => s.(callbacks := s.callbacks[k := cb])
    case Start(id) =>
      if Outranked(s, id) then s
      else State(s.connections[k := id], s.clients[k := id], s.callbacks,
                 if k in s.clients then s.gauge else s.gauge + 1)
    case Stop(id) =>
      if Outranked(s, id) then s
      else State(s.connections - {k}, s.clients - {k}, s.callbacks - {k},
                 if k in s.clients then s.gauge - 1 else s.gauge)
  }

  function DoAll(ops: seq<Op>): State {
    if ops == [] then State(map[], map[], map[], 0) else Do(DoAll(ops[..|ops| - 1]), ops[|ops| - 1])
  }

  // ---------------------------------------------------------------- consistency

  /** Each registered connection has the client made for it, and the gauge counts them. */
  ghost predicate Consistent(s: State) {
    && s.clients == s.connections
    && s.gauge == |s.connections|
    && forall k | k in s.connections :: KeyFor(s.connections[k]) == k
  }

  lemma StepIsConsistent(s: State, op: Op)
    requires Consistent(s)
    ensures Consistent(Do(s, op))
  {
    var k := KeyFor(op.id);
    SizeAfterPut(s.connections, k, Some(op.id));
    SizeAfterPut(s.connections, k, None);
  }

  /** In every reachable state, repeated and stray stops included. */
  lemma {:induction false} RegistryIsConsistent(ops: seq<Op>)
    ensures Consistent(DoAll(ops))
  {
    if ops != [] {
      RegistryIsConsistent(ops[..|ops| - 1]);
      StepIsConsistent(DoAll(ops[..|ops| - 1]), ops[|ops| - 1]);
    }
  }

  // ---------------------------------------------------------------- the newest connection wins

  /** Connections for one key have distinct times, and only connections that tried to start are stopped. */
  ghost predicate Sane(ops: seq<Op>) {
    && (forall i, j | 0 <= i < |ops| && 0 <= j < |ops| && KeyFor(ops[i].id) == KeyFor(ops[j].id) ::
          if ConnectionString(ops[i].id) == ConnectionString(ops[j].id)
          then ops[i].id == ops[j].id else ops[i].id.time != ops[j].id.time)
    && (forall j | 0 <= j < |ops| && ops[j].Stop? :: Start(ops[j].id) in ops[..j])
  }

  ghost predicate StartedAndNotStopped(ops: seq<Op>, id: ClientId, i: nat) {
    && i < |ops| && ops[i] == Start(id)
    && forall j | i < j < |ops| :: ops[j] != Stop(id)
  }

  lemma LiveExtends(ops: seq<Op>, op: Op, id: ClientId, i: nat)
    requires StartedAndNotStopped(ops, id, i) && op != Stop(id)
    ensures StartedAndNotStopped(ops + [op], id, i)
  {
  }

  /** What is registered after a step was registered before, unless the step started it; and it was not stopped. */
  lemma RegisteredBefore(s: State, op: Op, k: string)
    requires Consistent(s) && k in Do(s, op).connections
    ensures var c := Do(s, op).connections[k];
            op == Start(c) || (Get(s.connections, k) == Some(c) && op != Stop(c))
  {
  }

  /** Whatever is registered was started and has not been stopped since. */
  lemma {:induction false} RegisteredIsLive(ops: seq<Op>, k: string)
    requires k in DoAll(ops).connections
    ensures exists i: nat :: StartedAndNotStopped(ops, DoAll(ops).connections[k], i)
    ensures KeyFor(DoAll(ops).connections[k]) == k
  {
    var before, op := ops[..|ops| - 1], ops[|ops| - 1];
    var c := DoAll(ops).connections[k];
    RegistryIsConsistent(before);
    RegistryIsConsistent(ops);
    RegisteredBefore(DoAll(before), op, k);
    if op == Start(c) {
      assert StartedAndNotStopped(ops, c, |ops| - 1);
    } else {
      RegisteredIsLive(before, k);
      var i: nat :| StartedAndNotStopped(before, c, i);
      LiveExtends(before, op, c, i);
      assert ops == before + [op];
    }
  }

  /** Every other connection that tried to start for the same key is older. */
  ghost predicate Newest(ops: seq<Op>, id: ClientId) {
    forall j | 0 <= j < |ops| && ops[j].Start? && KeyFor(ops[j].id) == KeyFor(id) ::
      ops[j].id == id || ops[j].id.time < id.time
  }

  lemma SanePrefix(ops: seq<Op>, n: nat)
    requires Sane(ops) && n <= |ops|
    ensures Sane(ops[..n])
  {
    forall j | 0 <= j < n && ops[j].Stop? ensures Start(ops[j].id) in ops[..n][..j] {
      assert ops[..n][..j] == ops[..j];
    }
  }

  /** An older connection cannot displace a registered one. */
  lemma StaysRegistered(s: State, op: Op, id: ClientId)
    requires Get(s.connections, KeyFor(id)) == Some(id) && op != Stop(id)
    requires KeyFor(op.id) == KeyFor(id) && !op.Register? && op != Start(id) ==>
               ConnectionString(op.id) != ConnectionString(id) && op.id.time < id.time
    ensures Get(Do(s, op).connections, KeyFor(id)) == Some(id)
  {
  }

  lemma NewestIsAdmitted(before: seq<Op>, id: ClientId)
    requires Newest(before, id)
    ensures Get(Do(DoAll(before), Start(id)).connections, KeyFor(id)) == Some(id)
  {
    var s, k := DoAll(before), KeyFor(id);
    if k in s.connections {
      RegisteredIsLive(before, k);
      var j: nat :| StartedAndNotStopped(before, s.connections[k], j);
      assert KeyFor(before[j].id) == k;
    }
  }

  /**
   The newest connection that ever tried to start stays registered until it is itself stopped,
   whatever older connections start, are turned away, or stop.
   */
  lemma {:induction false} NewestConnectionWins(ops: seq<Op>, id: ClientId, i: nat)
    requires Sane(ops) && Newest(ops, id) && StartedAndNotStopped(ops, id, i)
    ensures Get(DoAll(ops).connections, KeyFor(id)) == Some(id)
  {
    var before, op := ops[..|ops| - 1], ops[|ops| - 1];
    SanePrefix(ops, |ops| - 1);
    assert Newest(before, id);
    if op == Start(id) {
      NewestIsAdmitted(before, id);
    } else {
      assert StartedAndNotStopped(before, id, i);
      NewestConnectionWins(before, id, i);
      if KeyFor(op.id) == KeyFor(id) && !op.Register? {
        OlderCannotDisplace(ops, id, i);
      }
      StaysRegistered(DoAll(before), op, id);
    }
  }

  lemma OlderCannotDisplace(ops: seq<Op>, id: ClientId, i: nat)
    requires Sane(ops) && Newest(ops, id) && StartedAndNotStopped(ops, id, i) && i < |ops| - 1
    requires var op := ops[|ops| - 1]; !op.Register? && op != Start(id) && KeyFor(op.id) == KeyFor(id)
    ensures var op := ops[|ops| - 1]; ConnectionString(op.id) != ConnectionString(id) && op.id.time < id.time
  {
    var n := |ops| - 1;
    var op := ops[n];
    assert ops[i].id == id;
    assert op.id != id;
    if op.Stop? {
      assert Start(op.id) in ops[..n];
      var j :| 0 <= j < n && ops[j] == Start(op.id);
    }
  }

  /**
   The stored callbacks are not protected in this way: a connection that is then turned away has
   already replaced the callbacks of the newer one.
   */
  lemma RejectedConnectionLeavesItsCallbacks(newer: ClientId, older: ClientId, a: int, b: int)
    requires KeyFor(newer) == KeyFor(older) && ConnectionString(newer) != ConnectionString(older)
    requires newer.time > older.time
    ensures var s := Do(Do(Do(Do(DoAll([]), Register(newer, a)), Start(newer)), Register(older, b)), Start(older));
            && Get(s.connections, KeyFor(newer)) == Some(newer)
            && Get(s.callbacks, KeyFor(newer)) == Some(b)
  {
  }

  // ---------------------------------------------------------------- callbacks and ties

  /** The last registration for a key that no effective stop of that key followed. */
  function LastRegistered(ops: seq<Op>, k: string): Option<int> {
    if ops == [] then None
    else
      var before, op := ops[..|ops| - 1], ops[|ops| - 1];
      if KeyFor(op.id) != k then LastRegistered(before, k)
      else
        match op
        case Register(_, cb) => Some(cb)
        case Start(_) => LastRegistered(before, k)
        case Stop(id) => if Outranked(DoAll(before), id) then LastRegistered(before, k) else None
  }

  /** The stored callbacks are always the ones registered last, whoever registered them; a stop removes them. */
  lemma {:induction false} CallbacksAreLastRegistered(ops: seq<Op>, k: string)
    ensures Get(DoAll(ops).callbacks, k) == LastRegistered(ops, k)
  {
    if ops != [] {
      CallbacksAreLastRegistered(ops[..|ops| - 1], k);
    }
  }

  /** Connections of the same age, and a connection that comes back, replace what is registered, and are stopped. */
  lemma OnlyNewerOthersOutrank(s: State, id: ClientId)
    requires KeyFor(id) in s.connections
    requires var c := s.connections[KeyFor(id)]; c.time <= id.time || ConnectionString(c) == ConnectionString(id)
    ensures Get(Do(s, Start(id)).connections, KeyFor(id)) == Some(id)
    ensures Get(Do(s, Stop(id)).connections, KeyFor(id)) == None && Get(Do(s, Stop(id)).callbacks, KeyFor(id)) == None
  {
  }

  // ---------------------------------------------------------------- the adapter

  class BackendAdapter {
    var connectionMap: map<string, ClientId>
    var clientsMap: map<string, ClientId>
    var callbacksMap: map<string, int>
    var gauge: int

    function View(): State
      reads this
    {
      State(connectionMap, clientsMap, callbacksMap, gauge)
    }

    constructor ()
      ensures View() == DoAll([])
    {
      connectionMap, clientsMap, callbacksMap, gauge := map[], map[], map[], 0;
    }

    method RegisterCallbacks(id: ClientId, callbacks: int)
      modifies this
      ensures View() == Do(old(View()), Register(id, callbacks))
    {
      callbacksMap := callbacksMap[KeyFor(id) := callbacks];
    }

    /** Fails when a newer connection exists, and also, though it is registered then, without callbacks. */
    method Start(id: ClientId) returns (failed: bool)
      modifies this
      ensures View() == Do(old(View()), Op.Start(id))
      ensures failed <==> Outranked(old(View()), id) || KeyFor(id) !in callbacksMap
    {
      var k := KeyFor(id);
      if k in connectionMap && ConnectionString(connectionMap[k]) != ConnectionString(id) {
        if connectionMap[k].time > id.time {
          return true;
        }
      }
      connectionMap := connectionMap[k := id];
      if k !in clientsMap {
        gauge := gauge + 1;
      }
      clientsMap := clientsMap[k := id];
      return k !in callbacksMap;
    }

    method Stop(id: ClientId)
      modifies this
      ensures View() == Do(old(View()), Op.Stop(id))
    {
      var k := KeyFor(id);
      if k in connectionMap && ConnectionString(connectionMap[k]) != ConnectionString(id) {
        if connectionMap[k].time > id.time {
          return;
        }
      }
      connectionMap := connectionMap - {k};
      callbacksMap := callbacksMap - {k};
      if k in clientsMap {
        clientsMap := clientsMap - {k};
        gauge := gauge - 1;
      }
      assert clientsMap == old(clientsMap) - {k};
    }

    /** The keepalive message names every registered connection exactly once. */
    method Keepalive() returns (clients: seq<ClientId>)
      requires Consistent(View())
      ensures |clients| == |connectionMap|
      ensures forall i | 0 <= i < |clients| :: Get(connectionMap, KeyFor(clients[i])) == Some(clients[i])
      ensures forall i, j | 0 <= i < j < |clients| :: KeyFor(clients[i]) != KeyFor(clients[j])
      ensures forall k | k in connectionMap :: connectionMap[k] in clients
    {
      clients := [];
      var todo := connectionMap.Keys;
      while todo != {}
        invariant todo <= connectionMap.Keys && |clients| + |todo| == |connectionMap|
        invariant forall i | 0 <= i < |clients| ::
                    Get(connectionMap, KeyFor(clients[i])) == Some(clients[i]) && KeyFor(clients[i]) !in todo
        invariant forall i, j | 0 <= i < j < |clients| :: KeyFor(clients[i]) != KeyFor(clients[j])
        invariant forall k | k in connectionMap && k !in todo :: connectionMap[k] in clients
      {
        var k :| k in todo;
        clients := clients + [connectionMap[k]];
        todo := todo - {k};
      }
    }

    /**
     The reconciliation requests go to exactly the connections that are old enough and new enough in
     version, one each; the client that a connection calls for is never missing.
     */
    method SelectForReconciliation(now: int, minAge: int, supportsBatches: string -> bool)
        returns (requests: seq<ClientId>, missing: int)
      requires Consistent(View())
      ensures missing == 0
      ensures forall c :: c in requests <==>
                Get(connectionMap, KeyFor(c)) == Some(c) && now - c.time >= minAge && supportsBatches(c.syncVersion)
      ensures forall i, j | 0 <= i < j < |requests| :: KeyFor(requests[i]) != KeyFor(requests[j])
    {
      requests, missing := [], 0;
      var todo := connectionMap.Keys;
      while todo != {}
        invariant todo <= connectionMap.Keys && missing == 0
        invariant forall c :: c in requests <==>
                    && Get(connectionMap, KeyFor(c)) == Some(c) && KeyFor(c) !in todo
                    && now - c.time >= minAge && supportsBatches(c.syncVersion)
        invariant forall i, j | 0 <= i < j < |requests| :: KeyFor(requests[i]) != KeyFor(requests[j])
      {
        var k :| k in todo;
        todo := todo - {k};
        var id := connectionMap[k];
        if now - id.time < minAge {
          continue;
        }
        if k !in clientsMap {
          missing := missing + 1;
          continue;
        }
        if !supportsBatches(id.syncVersion) {
          continue;
        }
        requests := requests + [id];
      }
    }
  }
}
