/**
 One exchange about one key: a message, the reply to it, the reply to the reply, until nobody answers
 or the depth guard drops a message.
 */
module Exchange {
  import opened Options
  import opened JsonMerge
  import opened Versions
  import opened Protocol

  const MAX_DEPTH := 8

  /** Everything both sides know about one key. */
  datatype Cell = Cell(held: Option<Doc>, shadow: Option<Doc>, stored: Option<Doc>)

  datatype Hop = Hop(toServer: bool, depth: nat, body: Body)

  function Reply(h: Hop, b: Option<Body>): Option<Hop> {
    if b.None? then None else Some(Hop(!h.toServer, h.depth + 1, b.value))
  }

  /** The receiver's reaction, with no limit on depth. */
  function React(env: Env, c: Cell, h: Hop): (Cell, Option<Hop>) {
    if h.toServer then
      var o := ServerStep(env, c.stored, h.body);
      (c.(stored := o.stored), Reply(h, o.reply))
    else
      var o := ClientStep(env, c.held, c.shadow, h.body);
      (c.(held := o.held, shadow := o.shadow), Reply(h, o.reply))
  }

  /** A message that is too deep is dropped unread. */
  function Deliver(env: Env, c: Cell, h: Hop): (Cell, Option<Hop>) {
    if h.depth > MAX_DEPTH then (c, None) else React(env, c, h)
  }

  /** Runs an exchange to its end and lists the messages that went over the wire. */
  function Run(env: Env, c: Cell, h: Hop): (Cell, seq<Hop>)
    decreases if h.depth > MAX_DEPTH then 0 else MAX_DEPTH + 1 - h.depth
  {
    var (c', next) := Deliver(env, c, h);
    if next.None? then (c', [h])
    else
      var (c'', rest) := Run(env, c', next.value);
      (c'', [h] + rest)
  }

  /** What the cluster holds once the event has happened. */
  function HeldAfter(e: Event): Option<Doc> {
    match e
    case Added(d) => Some(d)
    case Modified(d) => Some(d)
    case Deleted => None
  }

  /** The client handles an event, and the exchange it starts runs to its end; the cluster may be ahead of the event. */
  function Settle(env: Env, c: Cell, e: Event): (Cell, seq<Hop>) {
    var s := ClientEvent(env, c.shadow, e);
    var c' := c.(shadow := s.shadow);
    if s.message.None? then (c', []) else Run(env, c', Hop(true, 1, s.message.value))
  }

  // ---------------------------------------------------------------- depth

  /** Message i of an exchange is i levels deeper, the sides alternate, and nothing exceeds depth 9. */
  lemma {:induction false} ExchangeShape(env: Env, c: Cell, h: Hop)
    ensures var t := Run(env, c, h).1;
            && |t| >= 1 && t[0] == h
            && (forall i | 0 <= i < |t| :: t[i].depth == h.depth + i && t[i].toServer == (h.toServer == (i % 2 == 0)))
            && (h.depth <= MAX_DEPTH + 1 ==> |t| <= MAX_DEPTH + 2 - h.depth)
            && (h.depth > MAX_DEPTH ==> |t| == 1)
    decreases if h.depth > MAX_DEPTH then 0 else MAX_DEPTH + 1 - h.depth
  {
    var (c', next) := Deliver(env, c, h);
    if next.Some? {
      ExchangeShape(env, c', next.value);
      var rest := Run(env, c', next.value).1;
      var t := [h] + rest;
      forall i | 0 <= i < |t| ensures t[i].depth == h.depth + i && t[i].toServer == (h.toServer == (i % 2 == 0)) {
        if i > 0 { assert t[i] == rest[i - 1]; }
      }
    }
  }

  /** Whatever starts from an event stays within depth 9 on the wire. */
  lemma SettleDepth(env: Env, c: Cell, e: Event)
    ensures forall h | h in Settle(env, c, e).1 :: 1 <= h.depth <= 9
    ensures |Settle(env, c, e).1| <= 9
  {
    var s := ClientEvent(env, c.shadow, e);
    if s.message.Some? {
      ExchangeShape(env, c.(shadow := s.shadow), Hop(true, 1, s.message.value));
    }
  }

  /** The state after n reactions with the depth guard taken away. */
  function Unguarded(env: Env, c: Cell, h: Hop, n: nat): (Cell, Option<Hop>)
    decreases n
  {
    if n == 0 then (c, Some(h))
    else
      var (c', next) := React(env, c, h);
      if next.None? then (c', None) else Unguarded(env, c', next.value, n - 1)
  }

  lemma EmptyDiff(d: Doc)
    ensures Diff(d, d) == map[] && !EmptyPatch(map[]) && Merge(d, map[]) == d
  {
    DiffEmptyIffEqual(Obj(d), Obj(d));
    MergeEmpty(Obj(d));
  }

  /** The client answers once with what its shadow leads to, and from then on with empty patches. */
  lemma {:induction false} PingPong(env: Env, d: Doc, depth: nat, n: nat)
    requires env.strategy.Patch?
    ensures Unguarded(env, Cell(Some(d), Some(d), None), Hop(false, depth, GetObject(None)), n).1.Some?
    decreases n
  {
    EmptyDiff(d);
    var c := Cell(Some(d), Some(d), None);
    var empty := Hop(true, depth + 1, PatchObject(env.hash(d), map[]));
    assert React(env, c, Hop(false, depth, GetObject(None))) == (c, Some(empty));
    assert React(env, c, empty) == (c, Some(Hop(false, depth + 2, GetObject(None))));
    if n >= 2 {
      assert Unguarded(env, c, empty, n - 1) == Unguarded(env, c, Hop(false, depth + 2, GetObject(None)), n - 2);
      PingPong(env, d, depth + 2, n - 2);
    }
  }

  /**
   Only the guard ends every exchange: for an object that the server does not have and the client has
   any shadow of, the two sides answer each other forever, unless the very first answer is skipped.
   */
  lemma PingPongWithoutGuard(env: Env, shadow: Doc, d: Doc, depth: nat)
    requires env.strategy.Patch?
    ensures (forall n: nat ::
        Unguarded(env, Cell(Some(d), Some(shadow), None), Hop(false, depth, GetObject(None)), n).1.Some?)
            <==> !EmptyPatch(Diff(shadow, d))
  {
    var c, c' := Cell(Some(d), Some(shadow), None), Cell(Some(d), Some(d), None);
    var get, p := Hop(false, depth, GetObject(None)), Diff(shadow, d);
    if EmptyPatch(p) {
      assert React(env, c, get).1.None?;
      assert Unguarded(env, c, get, 1).1.None?;
    } else {
      var patch, again := Hop(true, depth + 1, PatchObject(env.hash(Merge(shadow, p)), p)),
          Hop(false, depth + 2, GetObject(None));
      assert React(env, c, get) == (c', Some(patch));
      assert React(env, c', patch) == (c', Some(again));
      forall n: nat ensures Unguarded(env, c, get, n).1.Some? {
        if n >= 2 {
          assert Unguarded(env, c', patch, n - 1) == Unguarded(env, c', again, n - 2);
          PingPong(env, d, depth + 2, n - 2);
        }
      }
    }
  }

  // ---------------------------------------------------------------- an object missing on the server

  predicate Stuck(c: Cell, h: Hop) {
    && c.stored.None? && c.held.Some? && c.shadow.Some?
    && (if h.toServer then h.body.PatchObject? else h.body == GetObject(None))
  }

  lemma {:induction false} StuckStaysUnstored(env: Env, c: Cell, h: Hop)
    requires env.strategy.Patch? && Stuck(c, h)
    ensures Run(env, c, h).0.stored.None?
    decreases if h.depth > MAX_DEPTH then 0 else MAX_DEPTH + 1 - h.depth
  {
    var (c', next) := Deliver(env, c, h);
    if next.Some? {
      StuckStaysUnstored(env, c', next.value);
    }
  }

  /**
   A checksum for an object that the server lacks leads to a full copy being stored exactly when the
   client sends whole objects anyway or has no shadow of it, and the message is at most 6 deep.
   */
  lemma MissingObjectRepair(env: Env, c: Cell, checksum: string, depth: nat)
    requires c.stored.None? && c.held.Some?
    ensures Run(env, c, Hop(true, depth, NewChecksum(checksum))).0.stored ==
            if depth <= MAX_DEPTH - 2 && (env.strategy.Copy? || c.shadow.None?) then c.held else None
    ensures depth <= MAX_DEPTH - 2 && (env.strategy.Copy? || c.shadow.None?) ==>
              Run(env, c, Hop(true, depth, NewChecksum(checksum))).1 ==
              [Hop(true, depth, NewChecksum(checksum)), Hop(false, depth + 1, GetObject(None)),
               Hop(true, depth + 2, PutObject(ChecksumOf(env, c.held.value), c.held.value))]
  {
    if depth <= MAX_DEPTH {
      var get := Hop(false, depth + 1, GetObject(None));
      assert Deliver(env, c, Hop(true, depth, NewChecksum(checksum))) == (c, Some(get));
      if depth + 1 <= MAX_DEPTH {
        if env.strategy.Patch? && c.shadow.Some? {
          StuckStaysUnstored(env, c, get);
        } else {
          var put := Hop(true, depth + 2, PutObject(ChecksumOf(env, c.held.value), c.held.value));
          var c' := Deliver(env, c, get).0;
          assert Deliver(env, c, get).1 == Some(put);
          assert Run(env, c', put).1 == [put];
          assert Run(env, c, get).1 == [get, put];
        }
      }
    }
  }

  // ---------------------------------------------------------------- convergence

  predicate Newer(next: Doc, than: Option<Doc>) {
    than.Some? ==> StringValueBigger(RawVersion(next), RawVersion(than.value))
  }

  lemma NewerIsSaved(env: Env, stored: Option<Doc>, obj: Doc)
    requires Newer(obj, stored)
    ensures SaveIfNewer(env, stored, obj) == Some(obj)
  {
  }

  /** The client answers the server's own base: one patch brings the server up to date. */
  lemma AnswerToBase(env: Env, c: Cell, depth: nat)
    requires depth <= MAX_DEPTH - 1
    requires c.held.Some? && c.stored.Some? && Newer(c.held.value, c.stored)
    requires Named(c.held.value) && PlainVersion(c.held.value)
    ensures var d := c.held.value;
            var (c', t) := Run(env, c, Hop(false, depth, GetObject(c.stored)));
            && c'.held == c.held && c'.stored.Some? && |t| <= 2
            && (|t| == 1 ==> env.strategy.Patch? && c'.stored == c.stored && SameUpToVersion(c'.stored.value, d))
            && (|t| == 2 ==> SameUpToNulls(c'.stored.value, d) && (NullFreeDoc(d) ==> c'.stored == Some(d)))
            && (|t| == 2 ==> RawVersion(c'.stored.value) == RawVersion(d))
            && (env.strategy.Patch? && NullFreeDoc(d) ==> c'.shadow == c'.stored)
            && (env.strategy.Copy? ==> c'.shadow == c.shadow)
  {
    var d := c.held.value;
    var get := Hop(false, depth, GetObject(c.stored));
    var s := PutOrPatch(env, c.shadow, c.stored, d);
    var c1 := c.(shadow := s.shadow);
    assert Deliver(env, c, get) == (c1, Reply(get, s.message));
    if env.strategy.Copy? {
      NewerIsSaved(env, c.stored, d);
    } else {
      var o := c.stored.value;
      SkippedPatchIsOnlyVersion(o, d);
      if EmptyPatch(Diff(o, d)) {
        OnlyVersionPatchKeepsContent(o, d);
      } else {
        AppliedPatch(o, d);
        NewerIsSaved(env, c.stored, Merge(o, Diff(o, d)));
      }
    }
  }

  /**
   From any server object and any shadow, however stale, a change to the object that the cluster now
   holds and that is sent at all settles in at most three messages (patch, get with base, patch) and leaves the
   server with the cluster's object, up to nulls that diffs cannot carry or up to the version when only that
   differs.
   */
  lemma StaleShadowConverges(env: Env, c: Cell, d: Doc)
    requires CollisionFree(env)
    requires c.held == Some(d) && c.stored.Some? && Newer(d, c.stored)
    requires Named(d) && PlainVersion(d)
    requires ClientEvent(env, c.shadow, Modified(d)).message.Some?
    ensures var (c', t) := Settle(env, c, Modified(d));
            && 1 <= |t| <= 3 && c'.held == Some(d) && c'.stored.Some?
            && (|t| == 2 ==> c'.stored == c.stored && SameUpToVersion(c'.stored.value, d))
            && (|t| != 2 ==> SameUpToNulls(c'.stored.value, d) && (NullFreeDoc(d) ==> c'.stored == Some(d)))
            && (env.strategy.Patch? && NullFreeDoc(d) ==> c'.shadow == c'.stored)
            && (env.strategy.Copy? ==> |t| == 1 && c'.shadow == c.shadow)
  {
    var s := ClientEvent(env, c.shadow, Modified(d));
    var c1 := c.(shadow := s.shadow);
    var first := Hop(true, 1, s.message.value);
    NewerIsSaved(env, c.stored, d);
    if env.strategy.Patch? && c.shadow.Some? {
      var b, o := c.shadow.value, c.stored.value;
      var p := Diff(b, d);
      if env.hash(Merge(o, p)) == env.hash(Merge(b, p)) {
        AcceptedPatch(env, b, d, o);
        AppliedPatch(b, d);
        NewerIsSaved(env, c.stored, Merge(o, p));
        assert Run(env, c1, first).1 == [first];
      } else {
        var get := Hop(false, 2, GetObject(c.stored));
        assert Deliver(env, c1, first) == (c1, Some(get));
        AnswerToBase(env, c1, 2);
        assert Run(env, c1, first).1 == [first] + Run(env, c1, get).1;
      }
    } else {
      assert Run(env, c1, first).1 == [first];
    }
  }
}
