/** The whole state of both sides, and its view key by key. */
module World {
  import opened Options
  import opened JsonMerge
  import opened Protocol
  import opened Exchange

  datatype World = World(cluster: map<Key, Doc>, shadow: map<Key, Doc>, server: map<Key, Doc>)

  function CellOf(w: World, k: Key): Cell {
    Cell(Get(w.cluster, k), Get(w.shadow, k), Get(w.server, k))
  }

  function SetCell(w: World, k: Key, c: Cell): World {
    World(Put(w.cluster, k, c.held), Put(w.shadow, k, c.shadow), Put(w.server, k, c.stored))
  }

  lemma CellAfterSet(w: World, k: Key, c: Cell, j: Key)
    ensures CellOf(SetCell(w, k, c), j) == if j == k then c else CellOf(w, j)
  {
  }

  /** The entries of a log that concern one key, in order. */
  function For<T>(log: seq<(Key, T)>, k: Key): seq<T> {
    if log == [] then []
    else if log[0].0 == k then [log[0].1] + For(log[1..], k)
    else For(log[1..], k)
  }

  lemma {:induction false} ForAppend<T>(a: seq<(Key, T)>, b: seq<(Key, T)>, k: Key)
    ensures For(a + b, k) == For(a, k) + For(b, k)
  {
    if a == [] {
      assert a + b == b;
    } else {
      assert (a + b)[1..] == a[1..] + b;
      ForAppend(a[1..], b, k);
    }
  }
}
