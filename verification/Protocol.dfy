/**
 The messages of the sync protocol and what each side does with one of them. Every handler touches
 only the object the message is about, so the rules are stated for one key: what the cluster holds
 for it, what the client's shadow says the server holds, and what the server stores.
 */
module Protocol {
  import opened Options
  import opened JsonMerge
  import opened Versions

  type Key = string

  datatype Strategy = Copy | Patch

  /** What the protocol takes from elsewhere. */
  datatype Env = Env(
    /** CanonicalHash of an object */
    hash: Doc -> string,
    /** whether metadata extraction succeeds on an object */
    readable: Doc -> bool,
    /** annotation that may carry a ready-made checksum */
    checksumKey: string,
    /** what the API server holds after a write over the current object; none when it refuses */
    admit: (Option<Doc>, Doc) -> Option<Doc>,
    strategy: Strategy)

  ghost predicate CollisionFree(env: Env) {
    forall a: Doc, b: Doc :: env.hash(a) == env.hash(b) ==> a == b
  }

  datatype Body =
    | NewChecksum(checksum: string)
    | GetObject(base: Option<Doc>)
    | PatchObject(patchChecksum: string, patch: Doc)
    | PutObject(putChecksum: string, content: Doc)
    | ObjectDeleted

  datatype Event = Added(doc: Doc) | Modified(doc: Doc) | Deleted

  /** State for one key and the message sent in reaction, if any. */
  datatype ServerOut = ServerOut(stored: Option<Doc>, reply: Option<Body>, failed: bool)
  datatype ClientOut = ClientOut(held: Option<Doc>, shadow: Option<Doc>, reply: Option<Body>, failed: bool)
  datatype Sent = Sent(shadow: Option<Doc>, message: Option<Body>)

  /** A message about a key, as an entry of a log. */
  function Tag(k: Key, b: Option<Body>): seq<(Key, Body)> {
    if b.Some? then [(k, b.value)] else []
  }

  // ---------------------------------------------------------------- server

  /** Keeps the old object unless both versions can be compared and the new one is not bigger. */
  function SaveIfNewer(env: Env, stored: Option<Doc>, obj: Doc): Option<Doc> {
    if && env.readable(obj) && stored.Some? && env.readable(stored.value)
       && !StringValueBigger(RawVersion(obj), RawVersion(stored.value))
    then stored
    else Some(obj)
  }

  function ServerStep(env: Env, stored: Option<Doc>, b: Body): ServerOut {
    match b
    case NewChecksum(c) =>
      if stored.None? then ServerOut(stored, Some(GetObject(None)), false)
      else if env.hash(stored.value) != c then ServerOut(stored, Some(GetObject(stored)), false)
      else ServerOut(stored, None, false)
    case GetObject(_) =>
      if stored.None? then ServerOut(stored, None, true)
      else ServerOut(stored, Some(PutObject("", stored.value)), false)
    case PatchObject(c, p) =>
      if stored.None? then ServerOut(stored, Some(GetObject(None)), false)
      else if env.hash(Merge(stored.value, p)) != c then ServerOut(stored, Some(GetObject(stored)), false)
      else ServerOut(SaveIfNewer(env, stored, Merge(stored.value, p)), None, false)
    case PutObject(_, obj) => ServerOut(SaveIfNewer(env, stored, obj), None, false)
    case ObjectDeleted => ServerOut(None, None, false)
  }

  // ---------------------------------------------------------------- client

  /** The checksum announced for an object: its annotation when it has one, else its hash. */
  function ChecksumOf(env: Env, d: Doc): string {
    var notes := FieldsOf(MemberOrNull(FieldsOf(MemberOrNull(d, METADATA)), "annotations"));
    if env.checksumKey in notes && notes[env.checksumKey].Str? then notes[env.checksumKey].s else env.hash(d)
  }

  /** Sends the object as a put or as a patch against the known base, and updates the shadow. */
  function PutOrPatch(env: Env, shadow: Option<Doc>, base: Option<Doc>, obj: Doc): Sent {
    if env.strategy.Copy? then Sent(shadow, Some(PutObject(ChecksumOf(env, obj), obj)))
    else
      var known := if base.Some? then base else shadow;
      if known.None? then Sent(Some(obj), Some(PutObject(ChecksumOf(env, obj), obj)))
      else
        var p := Diff(known.value, obj);
        if EmptyPatch(p) then Sent(known, None)
        else Sent(Some(obj), Some(PatchObject(env.hash(Merge(known.value, p)), p)))
  }

  /** What the client does with a watch event for a key. */
  function ClientEvent(env: Env, shadow: Option<Doc>, e: Event): Sent {
    match e
    case Added(d) => Sent(shadow, Some(NewChecksum(ChecksumOf(env, d))))
    case Modified(d) => PutOrPatch(env, shadow, None, d)
    case Deleted => Sent(if env.strategy.Patch? then None else shadow, Some(ObjectDeleted))
  }

  /** Merges one of the two mergeable fields: existing values win. */
  function MergeField(existing: Doc, submitted: Doc, field: string): Doc {
    if field in existing && existing[field].Obj? then
      if field in submitted && submitted[field].Obj?
      then existing[field := Obj(submitted[field].fields + existing[field].fields)]
      else existing
    else existing[field := MemberOrNull(submitted, field)]
  }

  function MergeMetadata(existing: Doc, submitted: Doc): Doc {
    MergeField(MergeField(existing, submitted, "annotations"), submitted, "labels")
  }

  /** The object submitted over an existing one: its own content with the merged metadata. */
  function Resubmission(existing: Doc, obj: Doc): Doc
    requires HasMetadata(existing) && HasMetadata(obj)
  {
    obj[METADATA := Obj(MergeMetadata(existing[METADATA].fields, obj[METADATA].fields))]
  }

  /** Creates the object, or updates the existing one; none when the write fails. */
  function ClusterWrite(env: Env, existing: Option<Doc>, obj: Doc): Option<Doc> {
    if existing.None? then env.admit(None, obj)
    else if HasMetadata(existing.value) && HasMetadata(obj) then env.admit(existing, Resubmission(existing.value, obj))
    else None
  }

  function ClientStep(env: Env, held: Option<Doc>, shadow: Option<Doc>, b: Body): ClientOut {
    match b
    case NewChecksum(c) =>
      if held.None? || env.hash(held.value) != c then ClientOut(held, shadow, Some(GetObject(None)), false)
      else ClientOut(held, shadow, None, false)
    case GetObject(base) =>
      if held.None? then ClientOut(held, shadow, None, true)
      else
        var s := PutOrPatch(env, shadow, base, held.value);
        ClientOut(held, s.shadow, s.message, false)
    case PatchObject(c, p) =>
      if env.strategy.Copy? || held.None? || env.hash(Merge(held.value, p)) != c
      then ClientOut(held, shadow, Some(GetObject(None)), false)
      else
        var modified := Merge(held.value, p);
        var written := ClusterWrite(env, held, modified);
        if written.None? then ClientOut(held, Some(modified), Some(GetObject(None)), false)
        else ClientOut(written, Some(modified), None, false)
    case PutObject(_, obj) =>
      var written := ClusterWrite(env, held, obj);
      if written.None? then ClientOut(held, shadow, None, true) else ClientOut(written, shadow, None, false)
    case ObjectDeleted =>
      ClientOut(None, if env.strategy.Patch? then None else shadow, None, held.None?)
  }

  // ---------------------------------------------------------------- facts about one patch

  /** What a diff leaves behind when it is applied to the base it was made against. */
  lemma AppliedPatch(base: Doc, next: Doc)
    ensures SameUpToNulls(Merge(base, Diff(base, next)), next)
    ensures RawVersion(Merge(base, Diff(base, next))) == RawVersion(next)
    ensures NullFreeDoc(next) ==> Merge(base, Diff(base, next)) == next
  {
    MergeOfDiff(base, next);
    MergeOfDiffUpToNulls(base, next);
    MergeOfDiffVersion(base, next);
  }

  /** A patch whose checksum matches has the same result everywhere. */
  lemma AcceptedPatch(env: Env, base: Doc, next: Doc, stored: Doc)
    requires CollisionFree(env)
    requires env.hash(Merge(stored, Diff(base, next))) == env.hash(Merge(base, Diff(base, next)))
    ensures Merge(stored, Diff(base, next)) == Merge(base, Diff(base, next))
  {
  }

  // ---------------------------------------------------------------- facts about one message

  /** An object announces the checksum in its annotation, and its hash if it has no such annotation. */
  lemma AnnouncedChecksum(env: Env, d: Doc, notes: Doc, checksum: string)
    requires HasMetadata(d)
    ensures var annotated := notes[env.checksumKey := Str(checksum)];
            ChecksumOf(env, d["metadata" := Obj(d["metadata"].fields["annotations" := Obj(annotated)])]) == checksum
    ensures "annotations" !in d["metadata"].fields ==> ChecksumOf(env, d) == env.hash(d)
    ensures ChecksumOf(env, d["metadata" := Obj(d["metadata"].fields["annotations" := Obj(notes - {env.checksumKey})])])
            == env.hash(d["metadata" := Obj(d["metadata"].fields["annotations" := Obj(notes - {env.checksumKey})])])
  {
  }

  /** A checksum meets silence exactly when the other side holds the very object. */
  lemma ChecksumIsSilentIff(env: Env, mine: Option<Doc>, shadow: Option<Doc>, d: Doc)
    requires CollisionFree(env)
    ensures ServerStep(env, mine, NewChecksum(env.hash(d))).reply.None? <==> mine == Some(d)
    ensures ClientStep(env, mine, shadow, NewChecksum(env.hash(d))).reply.None? <==> mine == Some(d)
  {
  }

  /** A handler fails exactly when it is asked for an object that is not there, or the cluster refuses the change. */
  lemma FailsIff(env: Env, stored: Option<Doc>, held: Option<Doc>, shadow: Option<Doc>, b: Body)
    ensures ServerStep(env, stored, b).failed <==> b.GetObject? && stored.None?
    ensures ClientStep(env, held, shadow, b).failed <==>
            || ((b.GetObject? || b.ObjectDeleted?) && held.None?)
            || (b.PutObject? && ClusterWrite(env, held, b.content).None?)
  {
  }
}
