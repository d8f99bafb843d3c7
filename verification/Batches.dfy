/** Batches of messages, and the effect of handling messages one after the other. */
module Batches {
  import opened Options
  import opened JsonMerge
  import opened Protocol

  datatype GetItem = GetItem(key: Key, base: Option<Doc>)
  datatype ChecksumItem = ChecksumItem(key: Key, version: int, checksum: string)
  datatype PatchItem = PatchItem(key: Key, checksum: string, patch: Doc)
  datatype PutItem = PutItem(key: Key, checksum: string, content: Doc)

  datatype BatchItems = BatchItems(
    gets: seq<GetItem>, checksums: seq<ChecksumItem>, deletions: seq<Key>, patches: seq<PatchItem>, puts: seq<PutItem>)
  {
    function Length(): nat {
      |gets| + |checksums| + |deletions| + |patches| + |puts|
    }

    /** The single messages that the batch stands for, in the order in which they are handled. */
    function Unrolled(): seq<(Key, Body)> {
      Gets(gets) + Checksums(checksums) + Deletions(deletions) + Patches(patches) + Puts(puts)
    }
  }

  function Gets(items: seq<GetItem>): seq<(Key, Body)> {
    seq(|items|, i requires 0 <= i < |items| => (items[i].key, GetObject(items[i].base)))
  }

  function Checksums(items: seq<ChecksumItem>): seq<(Key, Body)> {
    seq(|items|, i requires 0 <= i < |items| => (items[i].key, NewChecksum(items[i].checksum)))
  }

  function Deletions(items: seq<Key>): seq<(Key, Body)> {
    seq(|items|, i requires 0 <= i < |items| => (items[i], ObjectDeleted))
  }

  function Patches(items: seq<PatchItem>): seq<(Key, Body)> {
    seq(|items|, i requires 0 <= i < |items| => (items[i].key, PatchObject(items[i].checksum, items[i].patch)))
  }

  function Puts(items: seq<PutItem>): seq<(Key, Body)> {
    seq(|items|, i requires 0 <= i < |items| => (items[i].key, PutObject(items[i].checksum, items[i].content)))
  }

  // ---------------------------------------------------------------- server

  /** The server's objects, the messages it sent in reaction, and whether some handler failed. */
  datatype Served = Served(resources: map<Key, Doc>, replies: seq<(Key, Body)>, failed: bool)

  function Serve(env: Env, s: Served, m: (Key, Body)): Served {
    var o := ServerStep(env, Get(s.resources, m.0), m.1);
    Served(Put(s.resources, m.0, o.stored), s.replies + Tag(m.0, o.reply), s.failed || o.failed)
  }

  function ServeAll(env: Env, s: Served, ms: seq<(Key, Body)>): Served {
    if ms == [] then s else Serve(env, ServeAll(env, s, ms[..|ms| - 1]), ms[|ms| - 1])
  }

  // ---------------------------------------------------------------- client

  datatype Handled = Handled(cluster: map<Key, Doc>, shadow: map<Key, Doc>, replies: seq<(Key, Body)>, failed: bool)

  function Handle(env: Env, s: Handled, m: (Key, Body)): Handled {
    var o := ClientStep(env, Get(s.cluster, m.0), Get(s.shadow, m.0), m.1);
    Handled(Put(s.cluster, m.0, o.held), Put(s.shadow, m.0, o.shadow), s.replies + Tag(m.0, o.reply), s.failed
        || o.failed)
  }

  function HandleAll(env: Env, s: Handled, ms: seq<(Key, Body)>): Handled {
    if ms == [] then s else Handle(env, HandleAll(env, s, ms[..|ms| - 1]), ms[|ms| - 1])
  }

  // ---------------------------------------------------------------- laws

  lemma {:induction false} ServeAllConcat(env: Env, s: Served, a: seq<(Key, Body)>, b: seq<(Key, Body)>)
    ensures ServeAll(env, s, a + b) == ServeAll(env, ServeAll(env, s, a), b)
  {
    if b == [] {
      assert a + b == a;
    } else {
      assert (a + b)[..|a + b| - 1] == a + b[..|b| - 1];
      ServeAllConcat(env, s, a, b[..|b| - 1]);
    }
  }

  lemma {:induction false} HandleAllConcat(env: Env, s: Handled, a: seq<(Key, Body)>, b: seq<(Key, Body)>)
    ensures HandleAll(env, s, a + b) == HandleAll(env, HandleAll(env, s, a), b)
  {
    if b == [] {
      assert a + b == a;
    } else {
      assert (a + b)[..|a + b| - 1] == a + b[..|b| - 1];
      HandleAllConcat(env, s, a, b[..|b| - 1]);
    }
  }

  /** A batch stands for exactly Length() messages, and each causes at most one message in reaction. */
  lemma BatchWidth(env: Env, s: Served, c: Handled, items: BatchItems)
    ensures |items.Unrolled()| == items.Length()
    ensures |ServeAll(env, s, items.Unrolled()).replies| <= |s.replies| + items.Length()
    ensures |HandleAll(env, c, items.Unrolled()).replies| <= |c.replies| + items.Length()
  {
    RepliesBound(env, s, c, items.Unrolled());
  }

  lemma {:induction false} RepliesBound(env: Env, s: Served, c: Handled, ms: seq<(Key, Body)>)
    ensures |ServeAll(env, s, ms).replies| <= |s.replies| + |ms|
    ensures |HandleAll(env, c, ms).replies| <= |c.replies| + |ms|
  {
    if ms != [] {
      RepliesBound(env, s, c, ms[..|ms| - 1]);
    }
  }
}
