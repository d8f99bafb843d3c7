/**
 Writing an object that the cluster already has: read it, merge its metadata into the object, submit,
 and start over when someone else was faster.
 */
module ConflictRetry {
  import opened Options
  import opened JsonMerge
  import opened Versions
  import opened Protocol

  /** retry.DefaultRetry gives up after five attempts. */
  const STEPS := 5

  const MERGED := ["annotations", "labels"]

  /** An object as the API server hands it out. */
  type Resource = d: Doc | HasMetadata(d) witness map[METADATA := Obj(map[])]

  datatype Outcome = Accepted | Conflict | Refused

  /** What the cluster answers in one attempt: the current object, if it can be read, and the update's fate. */
  datatype Attempt = Attempt(current: Option<Resource>, outcome: Outcome)

  /** The in-place merge of annotations and labels: values that are there already are not overridden. */
  method MergeInto(current: Doc, submitted: Doc) returns (existing: Doc)
    ensures existing == MergeMetadata(current, submitted)
  {
    existing := current;
    for i := 0 to |MERGED|
      invariant i == 0 ==> existing == current
      invariant i == 1 ==> existing == MergeField(current, submitted, "annotations")
      invariant i == 2 ==> existing == MergeMetadata(current, submitted)
    {
      var field := MERGED[i];
      if field in existing && existing[field].Obj? {
        if field in submitted && submitted[field].Obj? {
          var values := existing[field].fields;
          var todo := submitted[field].fields.Keys;
          while todo != {}
            invariant todo <= submitted[field].fields.Keys
            invariant values == (submitted[field].fields - todo) + existing[field].fields
          {
            var k :| k in todo;
            if k !in values {
              values := values[k := submitted[field].fields[k]];
            }
            todo := todo - {k};
          }
          assert submitted[field].fields - {} == submitted[field].fields;
          existing := existing[field := Obj(values)];
        }
      } else {
        existing := existing[field := MemberOrNull(submitted, field)];
      }
    }
  }

  /** The object after the metadata of these readings has been merged in, one after the other. */
  function AfterReadings(obj: Resource, readings: seq<Resource>): Resource {
    if readings == [] then obj
    else Resubmission(readings[|readings| - 1], AfterReadings(obj, readings[..|readings| - 1]))
  }

  /** Each submission merges one more reading into the one before. */
  function Submissions(obj: Resource, readings: seq<Resource>): seq<Resource> {
    if readings == [] then [] else Submissions(obj, readings[..|readings| - 1]) + [AfterReadings(obj, readings)]
  }

  /** The readings of the first n attempts, all of which could be read. */
  predicate ReadingsOf(attempts: seq<Attempt>, readings: seq<Resource>) {
    |readings| <= |attempts| && forall i | 0 <= i < |readings| :: attempts[i].current == Some(readings[i])
  }

  /** Submits at most five times, and again only after a conflict. */
  method UpdateWithRetry(obj: Resource, attempts: seq<Attempt>)
      returns (sent: seq<Resource>, readings: seq<Resource>, ok: bool)
    requires |attempts| >= 5
    ensures ReadingsOf(attempts, readings) && |readings| <= 5
    ensures sent == Submissions(obj, readings)
    ensures forall i | 0 <= i < |readings| - 1 :: attempts[i].outcome.Conflict?
    ensures ok <==> readings != [] && attempts[|readings| - 1].outcome.Accepted?
    ensures !ok ==> || |readings| == 5
                    || attempts[|readings|].current.None?
                    || (readings != [] && attempts[|readings| - 1].outcome.Refused?)
  {
    sent, readings, ok := [], [], false;
    var current: Resource := obj;
    while |readings| < STEPS
      invariant ReadingsOf(attempts, readings) && |readings| <= STEPS && !ok
      invariant sent == Submissions(obj, readings) && current == AfterReadings(obj, readings)
      invariant forall i | 0 <= i < |readings| :: attempts[i].outcome.Conflict?
    {
      var a := attempts[|readings|];
      if a.current.None? {
        return;
      }
      var r: Resource := a.current.value;
      var merged := MergeInto(r[METADATA].fields, current[METADATA].fields);
      current := current[METADATA := Obj(merged)];
      assert (readings + [r])[..|readings|] == readings;
      readings := readings + [r];
      sent := sent + [current];
      match a.outcome
      case Accepted => ok := true; return;
      case Refused => return;
      case Conflict =>
    }
  }

  // ---------------------------------------------------------------- what is sent

  /** The labels or annotations of an object. */
  function Values(d: Resource, field: string): Doc {
    FieldsOf(MemberOrNull(d[METADATA].fields, field))
  }

  /** The value of a label or annotation: the newest reading that has it wins, the object itself comes last. */
  function WinningValue(obj: Resource, readings: seq<Resource>, field: string, k: string): Option<Json> {
    if readings == [] then Get(Values(obj, field), k)
    else
      var latest: Resource := readings[|readings| - 1];
      if k in Values(latest, field) then Some(Values(latest, field)[k])
      else WinningValue(obj, readings[..|readings| - 1], field, k)
  }

  /**
   After any number of retries: the content is the object's, the metadata is the latest reading's, and
   within labels and annotations each key has the value of the newest source that has it.
   */
  lemma {:induction false} RetriedSubmission(obj: Resource, readings: seq<Resource>)
    ensures var m := AfterReadings(obj, readings);
            && (forall f | f != METADATA :: Get(m, f) == Get(obj, f))
            && (readings != [] ==> forall f | f !in MERGED ::
                  Get(m[METADATA].fields, f) == Get(readings[|readings| - 1][METADATA].fields, f))
            && (forall f, k | f in MERGED :: Get(Values(m, f), k) == WinningValue(obj, readings, f, k))
  {
    if readings != [] {
      RetriedSubmission(obj, readings[..|readings| - 1]);
      var before: Resource := AfterReadings(obj, readings[..|readings| - 1]);
      var r: Resource := readings[|readings| - 1];
      assert AfterReadings(obj, readings)[METADATA].fields
          == MergeMetadata(r[METADATA].fields, before[METADATA].fields);
      forall f, k | f in MERGED
        ensures Get(Values(AfterReadings(obj, readings), f), k) == WinningValue(obj, readings, f, k)
      {
        MergedFieldAt(r[METADATA].fields, before[METADATA].fields, f, k);
        assert Get(Values(before, f), k) == WinningValue(obj, readings[..|readings| - 1], f, k);
      }
    }
  }

  lemma MergedFieldAt(existing: Doc, submitted: Doc, f: string, k: string)
    requires f in MERGED
    ensures var e := FieldsOf(MemberOrNull(existing, f));
            Get(FieldsOf(MemberOrNull(MergeMetadata(existing, submitted), f)), k) ==
            if k in e then Some(e[k]) else Get(FieldsOf(MemberOrNull(submitted, f)), k)
  {
    assert f == "annotations" || f == "labels";
    assert |"annotations"| != |"labels"|;
  }

  /** A key is sent exactly when the object or some reading has it: even one deleted in between comes back. */
  lemma {:induction false} RetriesAccumulateKeys(obj: Resource, readings: seq<Resource>, field: string, k: string)
    ensures WinningValue(obj, readings, field, k).Some? <==>
            k in Values(obj, field) || exists i | 0 <= i < |readings| :: k in Values(readings[i], field)
  {
    if readings != [] {
      var before := readings[..|readings| - 1];
      RetriesAccumulateKeys(obj, before, field, k);
      assert forall i | 0 <= i < |before| :: before[i] == readings[i];
    }
  }

  // ---------------------------------------------------------------- the write

  lemma {:induction false} FirstSubmission(obj: Resource, readings: seq<Resource>)
    requires readings != []
    ensures |Submissions(obj, readings)| == |readings|
    ensures Submissions(obj, readings)[0] == AfterReadings(obj, [readings[0]])
  {
    if |readings| > 1 {
      FirstSubmission(obj, readings[..|readings| - 1]);
    } else {
      assert readings == [readings[0]];
      assert Submissions(obj, readings[..0]) == [];
    }
  }

  /** Writing an object is its creation, or the first submission over the existing one. */
  lemma WriteIsFirstSubmission(env: Env, existing: Resource, obj: Resource)
    ensures ClusterWrite(env, None, obj) == env.admit(None, obj)
    ensures ClusterWrite(env, Some(existing), obj) == env.admit(Some(existing), Submissions(obj, [existing])[0])
  {
    FirstSubmission(obj, [existing]);
    assert [existing][..0] == [] && AfterReadings(obj, []) == obj;
  }

  /**
   What is submitted over an existing object: the content of the new object, the metadata of the existing one, and
   in labels and annotations the existing value of a key where there is one, else the new one.
   */
  lemma SubmittedOver(existing: Resource, obj: Resource)
    ensures var m := Submissions(obj, [existing])[0];
            && (forall f | f != "metadata" :: Get(m, f) == Get(obj, f))
            && (forall f | f != "annotations" && f != "labels" ::
                  Get(m["metadata"].fields, f) == Get(existing["metadata"].fields, f))
            && (forall f, k | f in {"annotations", "labels"} ::
                  Get(Values(m, f), k) ==
                  if k in Values(existing, f) then Some(Values(existing, f)[k]) else Get(Values(obj, f), k))
  {
    FirstSubmission(obj, [existing]);
    RetriedSubmission(obj, [existing]);
    assert [existing][..0] == [];
    forall f, k | f in {"annotations", "labels"}
      ensures WinningValue(obj, [existing], f, k) ==
              if k in Values(existing, f) then Some(Values(existing, f)[k]) else Get(Values(obj, f), k)
    {
      assert WinningValue(obj, [], f, k) == Get(Values(obj, f), k);
    }
    assert forall f | f in {"annotations", "labels"} :: f in MERGED;
    assert forall f | f != "annotations" && f != "labels" :: f !in MERGED;
  }

  /** The object that a put or an accepted patch brings to the client. */
  function Brought(existing: Doc, b: Body): Option<Doc> {
    match b
    case PutObject(_, d) => Some(d)
    case PatchObject(_, p) => Some(Merge(existing, p))
    case _ => None
  }

  /**
   With an API server that stores what is submitted, the cluster then holds exactly that: existing metadata is
   kept, down to labels and annotations, and content is the message's.
   */
  lemma MessageOverExisting(env: Env, existing: Resource, shadow: Option<Doc>, b: Body)
    requires b.PutObject? || b.PatchObject?
    requires b.PatchObject? ==> env.strategy.Patch? && env.hash(Merge(existing, b.patch)) == b.patchChecksum
    requires HasMetadata(Brought(existing, b).value)
    requires forall d: Doc :: env.admit(Some(existing), d) == Some(d)
    ensures var obj: Resource := Brought(existing, b).value;
            ClientStep(env, Some(existing), shadow, b).held == Some(Submissions(obj, [existing])[0])
  {
    WriteIsFirstSubmission(env, existing, Brought(existing, b).value);
  }
}
