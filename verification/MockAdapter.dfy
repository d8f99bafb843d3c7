/** The reference server: the adapter with version checks on and patch strategy off. */
module MockAdapter {
  import opened Options
  import opened JsonMerge
  import opened Versions
  import opened Protocol
  import opened Batches

  class MockAdapter {
    const env: Env
    var resources: map<Key, Doc>
    var shadowObjects: map<Key, Doc>
    /** the callbacks invoked so far */
    var calls: seq<(Key, Body)>

    constructor (env: Env)
      ensures this.env == env && resources == map[] && shadowObjects == map[] && calls == []
    {
      this.env := env;
      resources, shadowObjects, calls := map[], map[], [];
    }

    /** The visible state, with the failure of the calls made since some moment. */
    function View(failed: bool): Served
      reads this
    {
      Served(resources, calls, failed)
    }

    method SaveIfNewer(key: Key, newObject: Doc)
      modifies this`resources
      ensures resources == Put(old(resources), key, Protocol.SaveIfNewer(env, Get(old(resources), key), newObject))
    {
      if env.readable(newObject) {
        if key in resources {
          var oldObject := resources[key];
          if env.readable(oldObject) {
            if !StringValueBigger(RawVersion(newObject), RawVersion(oldObject)) {
              assert resources == resources[key := oldObject];
              return;
            }
          }
        }
      }
      resources := resources[key := newObject];
    }

    method DeleteObject(key: Key) returns (failed: bool)
      modifies this`resources
      ensures View(failed) == Serve(env, old(View(false)), (key, ObjectDeleted))
    {
      resources := resources - {key};
      return false;
    }

    method GetObject(key: Key, baseObject: Option<Doc>) returns (failed: bool)
      modifies this`calls
      ensures View(failed) == Serve(env, old(View(false)), (key, Body.GetObject(baseObject)))
    {
      if key !in resources {
        assert resources == Put(resources, key, None);
        return true;
      }
      calls := calls + [(key, Body.PutObject("", resources[key]))];
      assert resources == resources[key := resources[key]];
      return false;
    }

    method PutObject(key: Key, checksum: string, content: Doc) returns (failed: bool)
      modifies this`resources
      ensures View(failed) == Serve(env, old(View(false)), (key, Body.PutObject(checksum, content)))
    {
      SaveIfNewer(key, content);
      return false;
    }

    method ApplyPatch(key: Key, checksum: string, patch: Doc) returns (base: Option<Doc>, refused: bool)
      modifies this`resources, this`shadowObjects
      ensures var o := ServerStep(env, Get(old(resources), key), Body.PatchObject(checksum, patch));
              && resources == Put(old(resources), key, o.stored)
              && refused == o.reply.Some? && (refused ==> o.reply == Some(Body.GetObject(base)))
      ensures refused ==> shadowObjects == old(shadowObjects)
      ensures !refused ==>
                && key in old(resources)
                && shadowObjects == old(shadowObjects)[key := Merge(old(resources)[key], patch)]
    {
      if key !in resources {
        assert resources == Put(resources, key, None);
        return None, true;
      }
      var stored := resources[key];
      var modified := Merge(stored, patch);
      if env.hash(modified) != checksum {
        assert resources == resources[key := stored];
        return Some(stored), true;
      }
      SaveIfNewer(key, modified);
      shadowObjects := shadowObjects[key := modified];
      return None, false;
    }

    method PatchObject(key: Key, checksum: string, patch: Doc) returns (failed: bool)
      modifies this
      ensures View(failed) == Serve(env, old(View(false)), (key, Body.PatchObject(checksum, patch)))
    {
      var base, refused := ApplyPatch(key, checksum, patch);
      if refused {
        calls := calls + [(key, Body.GetObject(base))];
      }
      return false;
    }

    method VerifyObject(key: Key, newChecksum: string) returns (failed: bool)
      modifies this`calls
      ensures View(failed) == Serve(env, old(View(false)), (key, NewChecksum(newChecksum)))
    {
      if key !in resources {
        assert resources == Put(resources, key, None);
        calls := calls + [(key, Body.GetObject(None))];
      } else {
        assert resources == resources[key := resources[key]];
        if env.hash(resources[key]) != newChecksum {
          calls := calls + [(key, Body.GetObject(Some(resources[key])))];
        }
      }
      return false;
    }

    /** Hands a message to its handler. */
    method Handle(key: Key, body: Body) returns (failed: bool)
      modifies this
      ensures View(failed) == Serve(env, old(View(false)), (key, body))
    {
      match body
      case NewChecksum(c) => failed := VerifyObject(key, c);
      case GetObject(base) => failed := GetObject(key, base);
      case PatchObject(c, patch) => failed := PatchObject(key, c, patch);
      case PutObject(c, content) => failed := PutObject(key, c, content);
      case ObjectDeleted => failed := DeleteObject(key);
    }

    /** One of the loops over the items of a batch; errors are collected and do not stop it. */
    method HandleEach(messages: seq<(Key, Body)>, err: bool) returns (failed: bool)
      modifies this
      ensures View(failed) == ServeAll(env, old(View(err)), messages)
    {
      failed := err;
      for i := 0 to |messages|
        invariant View(failed) == ServeAll(env, old(View(err)), messages[..i])
      {
        assert messages[..i + 1][..i] == messages[..i];
        var f := Handle(messages[i].0, messages[i].1);
        failed := failed || f;
      }
      assert messages[..|messages|] == messages;
    }

    /**
     A batch has the effect of its items handled one at a time: the same objects, the same messages in
     the same order, and failure exactly when one of them fails.
     */
    method Batch(items: BatchItems) returns (failed: bool)
      modifies this
      ensures View(failed) == ServeAll(env, old(View(false)), items.Unrolled())
    {
      ghost var start := View(false);
      failed := HandleEach(Gets(items.gets), false);
      failed := HandleEach(Checksums(items.checksums), failed);
      ServeAllConcat(env, start, Gets(items.gets), Checksums(items.checksums));
      failed := HandleEach(Deletions(items.deletions), failed);
      ServeAllConcat(env, start, Gets(items.gets) + Checksums(items.checksums), Deletions(items.deletions));
      failed := HandleEach(Patches(items.patches), failed);
      ServeAllConcat(env, start, Gets(items.gets) + Checksums(items.checksums) + Deletions(items.deletions),
          Patches(items.patches));
      failed := HandleEach(Puts(items.puts), failed);
      ServeAllConcat(env, start,
        Gets(items.gets) + Checksums(items.checksums) + Deletions(items.deletions) + Patches(items.patches),
            Puts(items.puts));
    }
  }
}
