/** Histories of events: what they bring, in which order, and what they leave. */
module Histories {
  import opened Options
  import opened JsonMerge
  import opened Versions
  import opened Protocol
  import opened Exchange
  import opened World

  // ---------------------------------------------------------------- objects

  /** An object as the API server hands it out, with no explicit null. */
  predicate Regular(d: Doc) {
    NullFreeDoc(d) && Named(d) && PlainVersion(d)
  }

  /** A checksum annotation, where there is one, tells the truth. */
  predicate HonestChecksum(env: Env, d: Doc) {
    ChecksumOf(env, d) == env.hash(d)
  }

  predicate RegularEvent(env: Env, e: Event) {
    match e
    case Added(d) => Regular(d) && HonestChecksum(env, d)
    case Modified(d) => Regular(d)
    case Deleted => true
  }

  /** a is b, or an older version of the object. */
  predicate NoNewer(a: Doc, b: Doc) {
    a == b || StringValueBigger(RawVersion(b), RawVersion(a))
  }

  function Content(d: Option<Doc>): Option<Doc> {
    if d.Some? then Some(EraseVersion(d.value)) else None
  }

  ghost predicate SameContents(s: map<Key, Doc>, t: map<Key, Doc>) {
    forall k: Key :: Content(Get(s, k)) == Content(Get(t, k))
  }

  /** The shadow, where there is one, is what the server stores. */
  predicate Agree(env: Env, shadow: Option<Doc>, stored: Option<Doc>) {
    env.strategy.Patch? && shadow.Some? ==> stored == shadow
  }

  // ---------------------------------------------------------------- one patch

  /** What put-or-patch sends leads to the object, and it is silent only about what is known but for the version. */
  lemma SentLeadsTo(env: Env, shadow: Option<Doc>, base: Option<Doc>, d: Doc)
    requires Regular(d)
    ensures var m := PutOrPatch(env, shadow, base, d).message;
            var known := if base.Some? then base else shadow;
            && (m.None? ==> env.strategy.Patch? && known.Some? && SameUpToVersion(known.value, d))
            && (m.Some? && m.value.PatchObject? ==>
                  known.Some? && m.value == PatchObject(env.hash(d), Diff(known.value, d)))
            && (m.Some? && !m.value.PatchObject? ==> m.value == PutObject(ChecksumOf(env, d), d))
  {
    var known := if base.Some? then base else shadow;
    if env.strategy.Patch? && known.Some? {
      SkippedPatchIsOnlyVersion(known.value, d);
      AppliedPatch(known.value, d);
      if EmptyPatch(Diff(known.value, d)) {
        OnlyVersionPatchKeepsContent(known.value, d);
      }
    }
  }

  /** The message is a copy of this object, or a patch that leads to it. */
  predicate Brings(env: Env, b: Body, d: Doc) {
    (b.PutObject? && b.content == d) || (b.PatchObject? && b.patchChecksum == env.hash(d))
  }

  /** A server with an object no newer either stores the one it is brought or asks with its own as the base. */
  lemma ServerTakesOrAsks(env: Env, stored: Option<Doc>, b: Body, d: Doc)
    requires CollisionFree(env) && Brings(env, b, d)
    ensures var o := ServerStep(env, stored, b);
            && (o.reply.None? && (stored.Some? ==> NoNewer(stored.value, d)) ==> o.stored == Some(d))
            && (o.reply.None? ==> o.stored == stored || o.stored == Some(d))
            && (o.reply.Some? ==> o.reply.value == GetObject(stored) && o.stored == stored && b.PatchObject?)
  {
  }

  // ---------------------------------------------------------------- growing versions

  /** The object last announced for a key. */
  function SeenAfter(seen: Option<Doc>, e: Event): Option<Doc> {
    if HeldAfter(e).Some? then HeldAfter(e) else seen
  }

  /** A newer object than the one last announced, or that very object listed again. */
  predicate Follows(seen: Option<Doc>, e: Event) {
    match e
    case Added(d) => seen.Some? ==> d == seen.value || StringValueBigger(RawVersion(d), RawVersion(seen.value))
    case Modified(d) => seen.Some? ==> StringValueBigger(RawVersion(d), RawVersion(seen.value))
    case Deleted => true
  }

  /** The events of one key bring regular objects with growing versions. */
  predicate Growing(env: Env, seen: Option<Doc>, events: seq<Event>)
    decreases events
  {
    events == [] ||
    (RegularEvent(env, events[0]) && Follows(seen, events[0]) && Growing(env, SeenAfter(seen, events[0]), events[1..]))
  }

  ghost predicate GrowingLog(env: Env, seen: map<Key, Doc>, log: seq<(Key, Event)>) {
    forall k: Key :: Growing(env, Get(seen, k), For(log, k))
  }

  // ---------------------------------------------------------------- last events

  function LastOf(log: seq<(Key, Event)>, k: Key): Option<Event> {
    var l := For(log, k);
    if l == [] then None else Some(l[|l| - 1])
  }

  ghost predicate SameLast(a: seq<(Key, Event)>, b: seq<(Key, Event)>) {
    forall k: Key :: LastOf(a, k) == LastOf(b, k)
  }
}
