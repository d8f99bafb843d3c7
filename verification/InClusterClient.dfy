/** The in-cluster client for one kind of resource. */
module InClusterClient {
  import opened Options
  import opened JsonMerge
  import opened Versions
  import opened Protocol
  import opened World
  import opened Batches
  import opened Reconciliation
  import opened ShadowPrediction

  /** A watch event, and whether its object is one that the client filters out. */
  datatype WatchEvent = WatchEvent(key: Key, event: Event, filtered: bool)

  function Observe(env: Env, s: Handled, e: WatchEvent): Handled {
    if e.filtered then s
    else
      var o := ClientEvent(env, Get(s.shadow, e.key), e.event);
      s.(shadow := Put(s.shadow, e.key, o.shadow), replies := s.replies + Tag(e.key, o.message))
  }

  function ObserveAll(env: Env, s: Handled, events: seq<WatchEvent>): Handled {
    if events == [] then s else Observe(env, ObserveAll(env, s, events[..|events| - 1]), events[|events| - 1])
  }

  // ---------------------------------------------------------------- the event loop and the link

  function Unfiltered(events: seq<WatchEvent>): seq<WatchEvent> {
    if events == [] then []
    else
      var before, e := Unfiltered(events[..|events| - 1]), events[|events| - 1];
      if e.filtered then before else before + [e]
  }

  /** The unfiltered events as they happen on the client's side of the link. */
  function Happening(events: seq<WatchEvent>): seq<Step> {
    if events == [] then []
    else
      var before, e := Happening(events[..|events| - 1]), events[|events| - 1];
      if e.filtered then before else before + [Happen(e.key, e.event)]
  }

  lemma {:induction false} PlayOn(env: Env, l: Link, a: seq<Step>, b: seq<Step>)
    ensures Play(env, l, a + b) == Play(env, Play(env, l, a), b)
    decreases a
  {
    if a == [] {
      assert a + b == b;
    } else {
      assert (a + b)[1..] == a[1..] + b;
      PlayOn(env, Do(env, l, a[0]), a[1..], b);
    }
  }

  /** The loop sends and remembers exactly what the unfiltered events do to the link, and touches nothing else. */
  lemma {:induction false} LoopIsPlay(env: Env, s: Handled, events: seq<WatchEvent>, server: map<Key, Doc>,
                                      answers: seq<(Key, Body)>)
    ensures var o := ObserveAll(env, s, events);
            && Play(env, Link(s.shadow, s.replies, server, answers), Happening(events)) ==
               Link(o.shadow, o.replies, server, answers)
            && o.cluster == s.cluster && o.failed == s.failed
  {
    if events != [] {
      var before, e := events[..|events| - 1], events[|events| - 1];
      LoopIsPlay(env, s, before, server, answers);
      if !e.filtered {
        var l := Link(s.shadow, s.replies, server, answers);
        PlayOn(env, l, Happening(before), [Happen(e.key, e.event)]);
        var l1 := Play(env, l, Happening(before));
        assert [Happen(e.key, e.event)][1..] == [];
        assert Play(env, Do(env, l1, Happen(e.key, e.event)), []) == Do(env, l1, Happen(e.key, e.event));
      }
    }
  }

  /** Filtered events make no difference. */
  lemma {:induction false} FilteredDoNotMatter(env: Env, s: Handled, events: seq<WatchEvent>)
    ensures ObserveAll(env, s, events) == ObserveAll(env, s, Unfiltered(events))
    ensures forall e | e in Unfiltered(events) :: !e.filtered
  {
    if events != [] {
      FilteredDoNotMatter(env, s, events[..|events| - 1]);
    }
  }

  /** A first change of an object is put and remembered, unless the object is filtered: then nothing happens. */
  lemma FirstChange(env: Env, k: Key, d: Doc)
    requires env.strategy.Patch?
    ensures var s := Handled(map[k := d], map[], [], false);
            && ObserveAll(env, s, [WatchEvent(k, Modified(d), false)]) ==
               Handled(map[k := d], map[k := d], [(k, Body.PutObject(ChecksumOf(env, d), d))], false)
            && ObserveAll(env, s, [WatchEvent(k, Modified(d), true)]) == s
  {
    var s := Handled(map[k := d], map[], [], false);
    forall f: bool
      ensures ObserveAll(env, s, [WatchEvent(k, Modified(d), f)]) == Observe(env, s, WatchEvent(k, Modified(d), f))
    {
      assert [WatchEvent(k, Modified(d), f)][..0] == [];
      assert ObserveAll(env, s, []) == s;
    }
  }

  class Client {
    const env: Env
    /** the objects in the cluster, as the client renders them */
    var cluster: map<Key, Doc>
    var shadowObjects: map<Key, Doc>
    /** the callbacks invoked so far */
    var calls: seq<(Key, Body)>

    constructor (env: Env, cluster: map<Key, Doc>)
      ensures this.env == env && this.cluster == cluster && shadowObjects == map[] && calls == []
    {
      this.env, this.cluster := env, cluster;
      shadowObjects, calls := map[], [];
    }

    function View(failed: bool): Handled
      reads this
    {
      Handled(cluster, shadowObjects, calls, failed)
    }

    method CallPutOrPatch(key: Key, baseObject: Option<Doc>, newObject: Doc)
      modifies this`shadowObjects, this`calls
      ensures var s := PutOrPatch(env, Get(old(shadowObjects), key), baseObject, newObject);
              shadowObjects == Put(old(shadowObjects), key, s.shadow) && calls == old(calls) + Tag(key, s.message)
    {
      var checksum := ChecksumOf(env, newObject);
      if env.strategy.Patch? {
        if baseObject.Some? {
          shadowObjects := shadowObjects[key := baseObject.value];
        }
        if key in shadowObjects {
          var oldObject := shadowObjects[key];
          var patch := Diff(oldObject, newObject);
          if EmptyPatch(patch) {
            assert shadowObjects == Put(old(shadowObjects), key, Some(oldObject));
            return;
          }
          calls := calls + [(key, Body.PatchObject(env.hash(Merge(oldObject, patch)), patch))];
        } else {
          calls := calls + [(key, Body.PutObject(checksum, newObject))];
        }
        shadowObjects := shadowObjects[key := newObject];
      } else {
        calls := calls + [(key, Body.PutObject(checksum, newObject))];
        assert shadowObjects == Put(shadowObjects, key, Get(shadowObjects, key));
      }
    }

    /** The event loop: filtered events are skipped, the others are turned into messages. */
    method ProcessEvents(events: seq<WatchEvent>)
      modifies this`shadowObjects, this`calls
      ensures View(false) == ObserveAll(env, old(View(false)), events)
    {
      for n := 0 to |events|
        invariant cluster == old(cluster)
        invariant View(false) == ObserveAll(env, old(View(false)), events[..n])
      {
        assert events[..n + 1][..n] == events[..n];
        var e := events[n];
        if e.filtered {
          continue;
        }
        ghost var before := shadowObjects;
        match e.event
        case Added(d) =>
          calls := calls + [(e.key, NewChecksum(ChecksumOf(env, d)))];
          assert shadowObjects == Put(before, e.key, Get(before, e.key));
        case Deleted =>
          calls := calls + [(e.key, ObjectDeleted)];
          if env.strategy.Patch? {
            shadowObjects := shadowObjects - {e.key};
          }
          assert shadowObjects == Put(before, e.key, if env.strategy.Patch? then None else Get(before, e.key));
        case Modified(d) =>
          CallPutOrPatch(e.key, None, d);
      }
      assert events[..|events|] == events;
    }

    method GetObject(key: Key, baseObject: Option<Doc>) returns (failed: bool)
      modifies this
      ensures View(failed) == Handle(env, old(View(false)), (key, Body.GetObject(baseObject)))
    {
      assert cluster == Put(cluster, key, Get(cluster, key));
      if key !in cluster {
        assert shadowObjects == Put(shadowObjects, key, Get(shadowObjects, key));
        return true;
      }
      CallPutOrPatch(key, baseObject, cluster[key]);
      return false;
    }

    method VerifyObject(key: Key, newChecksum: string) returns (failed: bool)
      modifies this
      ensures View(failed) == Handle(env, old(View(false)), (key, NewChecksum(newChecksum)))
    {
      assert cluster == Put(cluster, key, Get(cluster, key));
      assert shadowObjects == Put(shadowObjects, key, Get(shadowObjects, key));
      if key !in cluster || env.hash(cluster[key]) != newChecksum {
        // the synchronizer of the client side never sends its base along
        calls := calls + [(key, Body.GetObject(None))];
      }
      return false;
    }

    method DeleteObject(key: Key) returns (failed: bool)
      modifies this
      ensures View(failed) == Handle(env, old(View(false)), (key, ObjectDeleted))
    {
      assert shadowObjects == Put(shadowObjects, key, Get(shadowObjects, key));
      if env.strategy.Patch? {
        shadowObjects := shadowObjects - {key};
      }
      failed := key !in cluster;
      cluster := cluster - {key};
    }

    /** Creates the object, or updates it with the metadata of the existing one merged in. */
    method PutObject(key: Key, checksum: string, content: Doc) returns (failed: bool)
      modifies this`cluster
      ensures View(failed) == Handle(env, old(View(false)), (key, Body.PutObject(checksum, content)))
    {
      assert cluster == Put(cluster, key, Get(cluster, key));
      assert shadowObjects == Put(shadowObjects, key, Get(shadowObjects, key));
      var written: Option<Doc> := None;
      if key !in cluster {
        written := env.admit(None, content);
      } else if HasMetadata(cluster[key]) && HasMetadata(content) {
        written := env.admit(Some(cluster[key]), Resubmission(cluster[key], content));
      }
      if written.None? {
        return true;
      }
      cluster := cluster[key := written.value];
      return false;
    }

    method ApplyPatch(key: Key, checksum: string, patch: Doc) returns (refused: bool)
      modifies this`cluster, this`shadowObjects
      ensures var o := ClientStep(env, Get(old(cluster), key), Get(old(shadowObjects), key),
          Body.PatchObject(checksum, patch));
              && cluster == Put(old(cluster), key, o.held) && shadowObjects == Put(old(shadowObjects), key, o.shadow)
              && refused == o.reply.Some? && !o.failed
    {
      assert cluster == Put(cluster, key, Get(cluster, key));
      assert shadowObjects == Put(shadowObjects, key, Get(shadowObjects, key));
      if env.strategy.Copy? || key !in cluster {
        return true;
      }
      var modified := Merge(cluster[key], patch);
      if env.hash(modified) != checksum {
        return true;
      }
      shadowObjects := shadowObjects[key := modified];
      refused := PutObject(key, checksum, modified);
    }

    method PatchObject(key: Key, checksum: string, patch: Doc) returns (failed: bool)
      modifies this
      ensures View(failed) == Handle(env, old(View(false)), (key, Body.PatchObject(checksum, patch)))
    {
      var refused := ApplyPatch(key, checksum, patch);
      if refused {
        calls := calls + [(key, Body.GetObject(None))];
      }
      return false;
    }

    /** Hands a message to its handler. */
    method HandleMessage(key: Key, body: Body) returns (failed: bool)
      modifies this
      ensures View(failed) == Handle(env, old(View(false)), (key, body))
    {
      match body
      case NewChecksum(c) => failed := VerifyObject(key, c);
      case GetObject(base) => failed := GetObject(key, base);
      case PatchObject(c, patch) => failed := PatchObject(key, c, patch);
      case PutObject(c, content) => failed := PutObject(key, c, content);
      case ObjectDeleted => failed := DeleteObject(key);
    }

    /** One of the loops over the items of a batch; errors are collected and do not stop it. */
    method HandleEach(messages: seq<(Key, Body)>, err: bool) returns (failed: bool)
      modifies this
      ensures View(failed) == HandleAll(env, old(View(err)), messages)
    {
      failed := err;
      for i := 0 to |messages|
        invariant View(failed) == HandleAll(env, old(View(err)), messages[..i])
      {
        assert messages[..i + 1][..i] == messages[..i];
        var f := HandleMessage(messages[i].0, messages[i].1);
        failed := failed || f;
      }
      assert messages[..|messages|] == messages;
    }

    /**
     A default batch has the effect of its items handled one at a time: the same state, the same messages
     in the same order, and failure exactly when one of them fails.
     */
    method DefaultBatch(items: BatchItems) returns (failed: bool)
      modifies this
      ensures View(failed) == HandleAll(env, old(View(false)), items.Unrolled())
    {
      ghost var start := View(false);
      failed := HandleEach(Gets(items.gets), false);
      failed := HandleEach(Checksums(items.checksums), failed);
      HandleAllConcat(env, start, Gets(items.gets), Checksums(items.checksums));
      failed := HandleEach(Deletions(items.deletions), failed);
      HandleAllConcat(env, start, Gets(items.gets) + Checksums(items.checksums), Deletions(items.deletions));
      failed := HandleEach(Patches(items.patches), failed);
      HandleAllConcat(env, start, Gets(items.gets) + Checksums(items.checksums) + Deletions(items.deletions),
          Patches(items.patches));
      failed := HandleEach(Puts(items.puts), failed);
      HandleAllConcat(env, start,
        Gets(items.gets) + Checksums(items.checksums) + Deletions(items.deletions) + Patches(items.patches),
            Puts(items.puts));
    }

    method CollectVersions(items: seq<ChecksumItem>) returns (versions: map<Key, int>)
      ensures versions == ListedVersions(items)
    {
      versions := map[];
      for i := 0 to |items|
        invariant versions == ListedVersions(items[..i])
      {
        assert items[..i + 1][..i] == items[..i];
        versions := versions[items[i].key := items[i].version];
      }
      assert items[..|items|] == items;
    }

    /** Resources that should not be on the server. */
    method SendDeletions(listing: map<Key, Listed>, versions: map<Key, int>)
      modifies this`calls
      ensures Acted(env, listing, versions, old(calls), calls, versions.Keys - listing.Keys)
    {
      var group := versions.Keys - listing.Keys;
      var todo := group;
      while todo != {}
        invariant todo <= group && Acted(env, listing, versions, old(calls), calls, group - todo)
      {
        var k :| k in todo;
        ActOnce(env, listing, versions, old(calls), calls, group - todo, k);
        assert group - (todo - {k}) == group - todo + {k};
        calls := calls + [(k, ObjectDeleted)];
        todo := todo - {k};
      }
      assert group - {} == group;
    }

    /** Resources in common whose versions differ. */
    method SendChanged(listing: map<Key, Listed>, versions: map<Key, int>)
      modifies this`calls
      ensures Acted(env, listing, versions, old(calls), calls, versions.Keys * listing.Keys)
    {
      var group := versions.Keys * listing.Keys;
      var todo := group;
      while todo != {}
        invariant todo <= group && Acted(env, listing, versions, old(calls), calls, group - todo)
      {
        var k :| k in todo;
        ActOnce(env, listing, versions, old(calls), calls, group - todo, k);
        assert group - (todo - {k}) == group - todo + {k};
        if ToResourceVersion(RawVersion(listing[k].doc)) != versions[k] {
          calls := calls + [(k, Body.PutObject(ChecksumOf(env, listing[k].doc), listing[k].doc))];
        } else {
          assert calls == calls + [];
        }
        todo := todo - {k};
      }
      assert group - {} == group;
    }

    /** Resources missing on the server: forget the shadow, then announce the checksum. */
    method SendMissing(listing: map<Key, Listed>, versions: map<Key, int>)
      modifies this`shadowObjects, this`calls
      ensures Acted(env, listing, versions, old(calls), calls, listing.Keys - versions.Keys)
      ensures shadowObjects == old(shadowObjects) - Announced(listing, versions)
    {
      var group := listing.Keys - versions.Keys;
      var todo := group;
      while todo != {}
        invariant todo <= group && Acted(env, listing, versions, old(calls), calls, group - todo)
        invariant shadowObjects == old(shadowObjects) - (Announced(listing, versions) - todo)
      {
        var k :| k in todo;
        ActOnce(env, listing, versions, old(calls), calls, group - todo, k);
        assert group - (todo - {k}) == group - todo + {k};
        assert Announced(listing, versions) - (todo - {k}) ==
               Announced(listing, versions) - todo + if listing[k].filtered then {} else {k};
        if !listing[k].filtered {
          shadowObjects := shadowObjects - {k};
          calls := calls + [(k, NewChecksum(env.hash(listing[k].doc)))];
        } else {
          assert calls == calls + [];
        }
        todo := todo - {k};
      }
      assert group - {} == group && Announced(listing, versions) - {} == Announced(listing, versions);
    }

    /**
     Reconciliation: an empty batch is an error, otherwise each key gets the one message that its
     action calls for and no other, and shadows of announced objects are dropped.
     */
    method Reconcile(items: seq<ChecksumItem>, listing: map<Key, Listed>) returns (failed: bool)
      modifies this`shadowObjects, this`calls
      ensures failed <==> items == []
      ensures failed ==> calls == old(calls) && shadowObjects == old(shadowObjects)
      ensures !failed ==>
                var versions := ListedVersions(items);
                && (forall k: Key :: For(calls, k) == For(old(calls), k) + ToSeq(ActionFor(env, listing, versions, k)))
                && shadowObjects == old(shadowObjects) - Announced(listing, versions)
    {
      if items == [] {
        return true;
      }
      var versions := CollectVersions(items);
      SendDeletions(listing, versions);
      ghost var afterDeletions := calls;
      SendChanged(listing, versions);
      ActTwice(env, listing, versions, old(calls), afterDeletions, calls, versions.Keys - listing.Keys,
          versions.Keys * listing.Keys);
      ghost var afterChanges := calls;
      SendMissing(listing, versions);
      ActTwice(env, listing, versions, old(calls), afterChanges, calls,
               (versions.Keys - listing.Keys) + (versions.Keys * listing.Keys), listing.Keys - versions.Keys);
      ActedOnAll(env, listing, versions, old(calls), calls,
                 (versions.Keys - listing.Keys) + (versions.Keys * listing.Keys) + (listing.Keys - versions.Keys));
      return false;
    }
  }

  /** Since `before`, exactly the actions of these keys have been sent, each once. */
  ghost predicate Acted(env: Env, listing: map<Key, Listed>, versions: map<Key, int>,
                        before: seq<(Key, Body)>, now: seq<(Key, Body)>, keys: set<Key>)
  {
    forall k: Key ::
      For(now, k) == For(before, k) + if k in keys then ToSeq(ActionFor(env, listing, versions, k)) else []
  }

  lemma ActOnce(env: Env, listing: map<Key, Listed>, versions: map<Key, int>,
                before: seq<(Key, Body)>, now: seq<(Key, Body)>, keys: set<Key>, key: Key)
    requires Acted(env, listing, versions, before, now, keys) && key !in keys
    ensures Acted(env, listing, versions, before, now + Tag(key, ActionFor(env, listing, versions, key)), keys + {key})
  {
    var a := ActionFor(env, listing, versions, key);
    var t := Tag(key, a);
    forall k: Key
      ensures For(now + t, k) ==
              For(before, k) + if k in keys + {key} then ToSeq(ActionFor(env, listing, versions, k)) else []
    {
      ForAppend(now, t, k);
      assert For(t, k) == if k == key then ToSeq(a) else [];
    }
  }

  lemma ActTwice(env: Env, listing: map<Key, Listed>, versions: map<Key, int>,
                 before: seq<(Key, Body)>, middle: seq<(Key, Body)>, now: seq<(Key, Body)>,
                 first: set<Key>, second: set<Key>)
    requires Acted(env, listing, versions, before, middle, first)
    requires Acted(env, listing, versions, middle, now, second)
    requires first !! second
    ensures Acted(env, listing, versions, before, now, first + second)
  {
    forall k: Key
      ensures For(now, k) ==
              For(before, k) + if k in first + second then ToSeq(ActionFor(env, listing, versions, k)) else []
    {
      assert For(middle, k) == For(before, k) + if k in first then ToSeq(ActionFor(env, listing, versions, k)) else [];
    }
  }

  lemma ActedOnAll(env: Env, listing: map<Key, Listed>, versions: map<Key, int>,
                   before: seq<(Key, Body)>, now: seq<(Key, Body)>, keys: set<Key>)
    requires Acted(env, listing, versions, before, now, keys) && keys == listing.Keys + versions.Keys
    ensures forall k: Key :: For(now, k) == For(before, k) + ToSeq(ActionFor(env, listing, versions, k))
  {
    forall k: Key ensures For(now, k) == For(before, k) + ToSeq(ActionFor(env, listing, versions, k)) {
      assert k !in keys ==> ActionFor(env, listing, versions, k).None?;
    }
  }
}
