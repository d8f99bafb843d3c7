/**
 Resource versions: how they are read out of an object and compared, and the patch that carries
 nothing else.
 */
module Versions {
  import opened Options
  import opened JsonMerge

  const METADATA := "metadata"
  const VERSION := "resourceVersion"
  const MAX_INT := 0x7fff_ffff_ffff_ffff

  // ---------------------------------------------------------------- numbers

  predicate AllDigits(s: string) {
    forall i | 0 <= i < |s| :: '0' <= s[i] <= '9'
  }

  function Decimal(s: string): int
    requires AllDigits(s)
  {
    if s == "" then 0 else Decimal(s[..|s| - 1]) * 10 + (s[|s| - 1] as int - '0' as int)
  }

  /** strconv.Atoi on a 64-bit platform: an optional sign, at least one digit, and no overflow. */
  function Atoi(s: string): Option<int> {
    var signed := s != "" && (s[0] == '+' || s[0] == '-');
    var digits := if signed then s[1..] else s;
    if digits == "" || !AllDigits(digits) then None
    else
      var n: int := if signed && s[0] == '-' then -Decimal(digits) else Decimal(digits);
      if -MAX_INT - 1 <= n <= MAX_INT then Some(n) else None
  }

  predicate StringValueBigger(s1: string, s2: string) {
    Atoi(s1).Some? && Atoi(s2).Some? && Atoi(s1).value > Atoi(s2).value
  }

  /** An unreadable version counts as 0. */
  function ToResourceVersion(version: string): int {
    if Atoi(version).Some? then Atoi(version).value else 0
  }

  // ---------------------------------------------------------------- numerals

  function Digit(n: nat): char
    requires n < 10
  {
    ('0' as int + n) as char
  }

  /** The decimal writing of a number. */
  function Numeral(n: nat): string {
    if n < 10 then [Digit(n)] else Numeral(n / 10) + [Digit(n % 10)]
  }

  lemma {:induction false} NumeralValue(n: nat)
    ensures Numeral(n) != "" && AllDigits(Numeral(n)) && Decimal(Numeral(n)) == n
  {
    if n < 10 {
      assert Numeral(n)[..0] == "";
    } else {
      NumeralValue(n / 10);
      assert Numeral(n)[..|Numeral(n)| - 1] == Numeral(n / 10);
    }
  }

  datatype Sign = Bare | Plus | Minus

  function SignText(sign: Sign): string {
    match sign
    case Bare => ""
    case Plus => "+"
    case Minus => "-"
  }

  function Signed(sign: Sign, n: nat): int {
    if sign.Minus? then -(n as int) else n
  }

  function Zeros(n: nat): string {
    seq(n, _ => '0')
  }

  /** How a number may be written: a sign, zeros in front, and its decimal writing. */
  function Written(sign: Sign, zeros: nat, n: nat): string {
    SignText(sign) + (Zeros(zeros) + Numeral(n))
  }

  lemma {:induction false} DecimalWithZeros(zeros: nat, ds: string)
    requires AllDigits(ds)
    ensures AllDigits(Zeros(zeros) + ds) && Decimal(Zeros(zeros) + ds) == Decimal(ds)
    decreases |ds|, zeros
  {
    var s := Zeros(zeros) + ds;
    if ds == "" {
      assert s == Zeros(zeros);
      if zeros > 0 {
        assert s[..zeros - 1] == Zeros(zeros - 1) + "";
        DecimalWithZeros(zeros - 1, "");
      }
    } else {
      DecimalWithZeros(zeros, ds[..|ds| - 1]);
      assert s[..|s| - 1] == Zeros(zeros) + ds[..|ds| - 1];
    }
  }

  lemma NumeralAppend(m: nat, d: nat)
    requires m > 0 && d < 10
    ensures Numeral(10 * m + d) == Numeral(m) + [Digit(d)]
  {
    assert (10 * m + d) / 10 == m && (10 * m + d) % 10 == d;
  }

  /** Every string of digits is zeros and the decimal writing of its value. */
  lemma {:induction false} DigitsAreWritten(ds: string) returns (zeros: nat)
    requires ds != "" && AllDigits(ds)
    ensures Decimal(ds) >= 0 && ds == Zeros(zeros) + Numeral(Decimal(ds))
  {
    var before, d: nat := ds[..|ds| - 1], ds[|ds| - 1] as int - '0' as int;
    assert ds == before + [Digit(d)];
    zeros := 0;
    if before != "" {
      zeros := DigitsAreWritten(before);
      var m := Decimal(before);
      if m == 0 {
        OneZeroMore(zeros);
        zeros := zeros + 1;
      } else {
        NumeralAppend(m, d);
      }
    }
  }

  lemma OneZeroMore(zeros: nat)
    ensures Zeros(zeros) + Numeral(0) == Zeros(zeros + 1)
  {
  }

  predicate Fits(v: int) {
    -9223372036854775808 <= v <= 9223372036854775807
  }

  lemma SignedDigitsAreRead(sign: Sign, ds: string)
    requires ds != "" && AllDigits(ds) && Decimal(ds) >= 0
    ensures Atoi(SignText(sign) + ds) ==
            if Fits(Signed(sign, Decimal(ds))) then Some(Signed(sign, Decimal(ds))) else None
  {
    var s := SignText(sign) + ds;
    if sign.Bare? {
      assert s == ds && '0' <= ds[0] <= '9';
    } else {
      assert s[0] == SignText(sign)[0] && s[1..] == ds;
    }
  }

  lemma WrittenIsRead(sign: Sign, zeros: nat, n: nat)
    ensures Atoi(Written(sign, zeros, n)) == if Fits(Signed(sign, n)) then Some(Signed(sign, n)) else None
  {
    NumeralValue(n);
    DecimalWithZeros(zeros, Numeral(n));
    SignedDigitsAreRead(sign, Zeros(zeros) + Numeral(n));
  }

  /** The string writes the number: with or without a sign, zeros in front, and nothing else. */
  ghost predicate Writes(s: string, v: int) {
    exists sign: Sign, zeros: nat, n: nat :: v == Signed(sign, n) && s == Written(sign, zeros, n)
  }

  lemma ReadIsWritten(s: string, v: int)
    requires Atoi(s) == Some(v)
    ensures Writes(s, v) && Fits(v)
  {
    var sign, digits := SplitSign(s);
    DigitsAreNatural(digits);
    SignedDigitsAreRead(sign, digits);
    var zeros := DigitsAreWritten(digits);
    assert v == Signed(sign, Decimal(digits)) && s == Written(sign, zeros, Decimal(digits));
  }

  lemma SplitSign(s: string) returns (sign: Sign, digits: string)
    requires Atoi(s).Some?
    ensures s == SignText(sign) + digits && digits != "" && AllDigits(digits)
  {
    sign, digits := Bare, s;
    if s[0] == '+' {
      sign, digits := Plus, s[1..];
    } else if s[0] == '-' {
      sign, digits := Minus, s[1..];
    }
  }

  lemma {:induction false} DigitsAreNatural(ds: string)
    requires AllDigits(ds)
    ensures Decimal(ds) >= 0
  {
    if ds != "" { DigitsAreNatural(ds[..|ds| - 1]); }
  }

  /** A version is read exactly if it is a number, with or without a sign, that fits into 64 bits. */
  lemma AtoiIff(s: string, v: int)
    ensures Atoi(s) == Some(v) <==> Writes(s, v) && Fits(v)
  {
    if Atoi(s) == Some(v) {
      ReadIsWritten(s, v);
    } else if Writes(s, v) && Fits(v) {
      var sign: Sign, zeros: nat, n: nat :| v == Signed(sign, n) && s == Written(sign, zeros, n);
      WrittenIsRead(sign, zeros, n);
    }
  }

  lemma NumeralIsRead(n: nat)
    requires n <= 9223372036854775807
    ensures Atoi(Numeral(n)) == Some(n)
  {
    WrittenIsRead(Bare, 0, n);
    assert Written(Bare, 0, n) == Numeral(n);
  }

  /** Versions are compared as numbers, not as text. */
  lemma BiggerIsNumeric(a: nat, b: nat)
    requires a <= 9223372036854775807 && b <= 9223372036854775807
    ensures StringValueBigger(Numeral(a), Numeral(b)) <==> a > b
  {
    NumeralIsRead(a);
    NumeralIsRead(b);
  }

  lemma TenIsBiggerThanNine()
    ensures StringValueBigger("10", "9") && !StringValueBigger("9", "10") && !StringValueBigger("10", "10")
    ensures ToResourceVersion("10") == 10 && ToResourceVersion("-3") == -3 && ToResourceVersion("x") == 0
    ensures Atoi("") == None && Atoi("-") == None && Atoi("1a") == None
  {
    assert Numeral(10) == "10" && Numeral(9) == "9" && Numeral(3) == "3";
    assert Written(Minus, 0, 3) == "-3";
    BiggerIsNumeric(10, 9);
    BiggerIsNumeric(9, 10);
    BiggerIsNumeric(10, 10);
    NumeralIsRead(10);
    WrittenIsRead(Minus, 0, 3);
    assert "1a"[1] == 'a';
  }

  // ---------------------------------------------------------------- versions of objects

  /** The string at metadata.resourceVersion, empty when there is none. */
  function RawVersion(d: Doc): string {
    if METADATA in d && d[METADATA].Obj? && VERSION in d[METADATA].fields && d[METADATA].fields[VERSION].Str?
    then d[METADATA].fields[VERSION].s
    else ""
  }

  function EraseVersion(d: Doc): Doc {
    if METADATA in d && d[METADATA].Obj? then d[METADATA := Obj(d[METADATA].fields - {VERSION})] else d
  }

  predicate SameUpToVersion(a: Doc, b: Doc) {
    EraseVersion(a) == EraseVersion(b)
  }

  predicate HasMetadata(d: Doc) {
    METADATA in d && d[METADATA].Obj?
  }

  /** Every object that the API server hands out has a name. */
  predicate Named(d: Doc) {
    HasMetadata(d) && "name" in d[METADATA].fields
  }

  /** The version of an object is what stands at metadata.resourceVersion, and it does not belong to the content. */
  lemma VersionIsReadAndErased(d: Doc, version: string)
    requires "metadata" in d && d["metadata"].Obj?
    ensures var d' := d["metadata" := Obj(d["metadata"].fields["resourceVersion" := Str(version)])];
            RawVersion(d') == version && SameUpToVersion(d, d')
  {
    var m := d["metadata"].fields;
    assert m["resourceVersion" := Str(version)] - {VERSION} == m - {VERSION};
  }

  /** Everything else does. */
  lemma SameUpToVersionIff(a: Doc, b: Doc)
    requires HasMetadata(a) && HasMetadata(b)
    ensures SameUpToVersion(a, b) <==>
            && (forall k | k != "metadata" :: Get(a, k) == Get(b, k))
            && forall k | k != "resourceVersion" :: Get(a["metadata"].fields, k) == Get(b["metadata"].fields, k)
  {
    var m, n := a["metadata"].fields, b["metadata"].fields;
    if SameUpToVersion(a, b) {
      assert EraseVersion(a)["metadata"] == EraseVersion(b)["metadata"];
      forall k | k != "metadata" ensures Get(a, k) == Get(b, k) {
        assert Get(EraseVersion(a), k) == Get(EraseVersion(b), k);
      }
      forall k | k != "resourceVersion" ensures Get(m, k) == Get(n, k) {
        assert Get(m - {VERSION}, k) == Get(n - {VERSION}, k);
      }
    } else if forall k | k != "resourceVersion" :: Get(m, k) == Get(n, k) {
      forall k ensures Get(m - {VERSION}, k) == Get(n - {VERSION}, k) {
        if k != VERSION { assert Get(m, k) == Get(n, k); }
      }
      SameLookups(m - {VERSION}, n - {VERSION});
      if forall k | k != "metadata" :: Get(a, k) == Get(b, k) {
        forall k ensures Get(EraseVersion(a), k) == Get(EraseVersion(b), k) {
          if k != METADATA { assert Get(a, k) == Get(b, k); }
        }
        SameLookups(EraseVersion(a), EraseVersion(b));
      }
    }
  }

  /** A diff always carries the version over, nulls or not. */
  lemma MergeOfDiffVersion(base: Doc, next: Doc)
    ensures RawVersion(Merge(base, Diff(base, next))) == RawVersion(next)
  {
    MergedAt(Obj(base), Obj(next), METADATA);
    if METADATA in base && METADATA in next && base[METADATA].Obj? && next[METADATA].Obj? {
      MergedAt(base[METADATA], next[METADATA], VERSION);
    }
  }

  // ---------------------------------------------------------------- the empty patch

  /** The whole patch is `{"metadata":{"resourceVersion":"<digits>"}}`. */
  predicate OnlyVersion(p: Doc) {
    && p.Keys == {METADATA}
    && p[METADATA].Obj?
    && p[METADATA].fields.Keys == {VERSION}
    && p[METADATA].fields[VERSION].Str?
    && p[METADATA].fields[VERSION].s != ""
    && AllDigits(p[METADATA].fields[VERSION].s)
  }

  /** The expression is not anchored, so it also matches an object that sits deeper in the patch. */
  predicate MatchesEmptyPatch(v: Json) {
    match v
    case Obj(m) => OnlyVersion(m) || exists k | k in m :: MatchesEmptyPatch(m[k])
    case Arr(items) => exists i | 0 <= i < |items| :: MatchesEmptyPatch(items[i])
    case _ => false
  }

  predicate EmptyPatch(p: Doc) {
    MatchesEmptyPatch(Obj(p))
  }

  /** Some object in v has a member metadata.resourceVersion. */
  predicate HasVersionInside(v: Json) {
    match v
    case Obj(m) =>
      || (METADATA in m && m[METADATA].Obj? && VERSION in m[METADATA].fields)
      || exists k | k in m :: HasVersionInside(m[k])
    case Arr(items) => exists i | 0 <= i < |items| :: HasVersionInside(items[i])
    case _ => false
  }

  /** The object's own version is the only one in it. */
  predicate PlainVersion(d: Doc) {
    forall k | k in d :: !HasVersionInside(d[k])
  }

  lemma {:induction false} MatchNeedsVersion(v: Json)
    requires MatchesEmptyPatch(v)
    ensures HasVersionInside(v)
  {
    match v
    case Obj(m) =>
      if !OnlyVersion(m) {
        var k :| k in m && MatchesEmptyPatch(m[k]);
        MatchNeedsVersion(m[k]);
      }
    case Arr(items) =>
      var i :| 0 <= i < |items| && MatchesEmptyPatch(items[i]);
      MatchNeedsVersion(items[i]);
    case _ =>
  }

  lemma {:induction false} DiffMatchNeedsVersion(a: Json, b: Json)
    requires a.Obj? && b.Obj?
    requires MatchesEmptyPatch(Obj(DiffObj(a, b)))
    ensures HasVersionInside(b)
    decreases b
  {
    var d := DiffObj(a, b);
    if OnlyVersion(d) {
      assert METADATA in d;
      assert d[METADATA] == DiffAt(a, b, METADATA).value;
      if METADATA in a.fields && a.fields[METADATA].Obj? && b.fields[METADATA].Obj? {
        var inner := DiffObj(a.fields[METADATA], b.fields[METADATA]);
        assert VERSION in inner;
        assert inner[VERSION] == DiffAt(a.fields[METADATA], b.fields[METADATA], VERSION).value;
      }
    } else {
      var k :| k in d && MatchesEmptyPatch(d[k]);
      DiffMemberMatchNeedsVersion(a, b, k);
    }
  }

  lemma {:induction false} DiffMemberMatchNeedsVersion(a: Json, b: Json, k: string)
    requires a.Obj? && b.Obj?
    requires k in DiffObj(a, b) && MatchesEmptyPatch(DiffObj(a, b)[k])
    ensures k in b.fields && HasVersionInside(b.fields[k])
    decreases b, 0
  {
    assert DiffObj(a, b)[k] == DiffAt(a, b, k).value;
    if k in a.fields && k in b.fields && a.fields[k].Obj? && b.fields[k].Obj? {
      DiffMatchNeedsVersion(a.fields[k], b.fields[k]);
    } else {
      MatchNeedsVersion(b.fields[k]);
    }
  }

  /** Where no object hides a second version, only patches that carry just the version are skipped. */
  lemma SkippedPatchIsOnlyVersion(base: Doc, next: Doc)
    requires PlainVersion(next)
    ensures EmptyPatch(Diff(base, next)) <==> OnlyVersion(Diff(base, next))
  {
    var d := Diff(base, next);
    if EmptyPatch(d) && !OnlyVersion(d) {
      var k :| k in d && MatchesEmptyPatch(d[k]);
      DiffMemberMatchNeedsVersion(Obj(base), Obj(next), k);
    }
  }

  /** A skipped patch of that shape loses nothing but the version. */
  lemma OnlyVersionPatchKeepsContent(base: Doc, next: Doc)
    requires Named(next)
    requires OnlyVersion(Diff(base, next))
    ensures SameUpToVersion(base, next)
  {
    var a, b, d := Obj(base), Obj(next), Diff(base, next);
    assert d[METADATA] == DiffAt(a, b, METADATA).value;
    assert METADATA in base && base[METADATA].Obj? && next[METADATA].Obj?;
    var am, bm := base[METADATA], next[METADATA];
    forall k ensures Get(am.fields - {VERSION}, k) == Get(bm.fields - {VERSION}, k) {
      if k != VERSION {
        assert k !in DiffObj(am, bm);
        UntouchedMember(am, bm, k);
      }
    }
    SameLookups(am.fields - {VERSION}, bm.fields - {VERSION});
    forall k ensures Get(EraseVersion(base), k) == Get(EraseVersion(next), k) {
      if k != METADATA {
        assert k !in d;
        UntouchedMember(a, b, k);
        assert Get(base, k) == Get(next, k);
      }
    }
    SameLookups(EraseVersion(base), EraseVersion(next));
  }

  lemma UntouchedMember(a: Json, b: Json, k: string)
    requires a.Obj? && b.Obj? && k !in DiffObj(a, b)
    ensures Get(a.fields, k) == Get(b.fields, k)
  {
    if k in a.fields.Keys + b.fields.Keys {
      assert DiffAt(a, b, k).None?;
      if k in a.fields && k in b.fields && a.fields[k].Obj? && b.fields[k].Obj? {
        DiffEmptyIffEqual(a.fields[k], b.fields[k]);
      }
    }
  }

  lemma AgreedMember(a: Json, b: Json, k: string)
    requires a.Obj? && b.Obj? && Get(a.fields, k) == Get(b.fields, k)
    ensures k !in DiffObj(a, b)
  {
    if k in a.fields {
      assert a.fields[k] == b.fields[k];
      if a.fields[k].Obj? { DiffEmptyIffEqual(a.fields[k], b.fields[k]); }
    }
  }

  /** Objects that differ at most in the version have a diff that says nothing else. */
  lemma DiffOfSameContent(base: Doc, next: Doc)
    requires Named(next) && SameUpToVersion(base, next)
    ensures Diff(base, next).Keys <= {METADATA}
    ensures HasMetadata(base) && DiffObj(base[METADATA], next[METADATA]).Keys <= {VERSION}
  {
    var a, b, d := Obj(base), Obj(next), Diff(base, next);
    assert EraseVersion(base)[METADATA] == EraseVersion(next)[METADATA];
    forall k | k != METADATA ensures k !in d {
      assert Get(EraseVersion(base), k) == Get(EraseVersion(next), k);
      AgreedMember(a, b, k);
    }
    forall k | k != VERSION ensures k !in DiffObj(base[METADATA], next[METADATA]) {
      assert Get(base[METADATA].fields - {VERSION}, k) == Get(next[METADATA].fields - {VERSION}, k);
      AgreedMember(base[METADATA], next[METADATA], k);
    }
  }

  /**
   Of the patches that are skipped, exactly those that carry just the version lose nothing; the
   expression would have to match the whole patch to skip only these.
   */
  lemma SkippedPatchIsHarmlessIff(base: Doc, next: Doc)
    requires Named(next) && (VERSION in next[METADATA].fields ==> next[METADATA].fields[VERSION].Str?)
    requires EmptyPatch(Diff(base, next))
    ensures SameUpToVersion(base, next) <==> OnlyVersion(Diff(base, next))
  {
    var d := Diff(base, next);
    if OnlyVersion(d) {
      OnlyVersionPatchKeepsContent(base, next);
    }
    if SameUpToVersion(base, next) {
      DiffOfSameContent(base, next);
      VersionAloneDoesNotMatch(base[METADATA], next[METADATA]);
      assert METADATA in d ==> d[METADATA] == DiffAt(Obj(base), Obj(next), METADATA).value;
    }
  }

  /** Within the metadata, a string for the version is not such a match. */
  lemma VersionAloneDoesNotMatch(a: Json, b: Json)
    requires a.Obj? && b.Obj? && (VERSION in b.fields ==> b.fields[VERSION].Str?)
    requires DiffObj(a, b).Keys <= {VERSION}
    ensures !MatchesEmptyPatch(Obj(DiffObj(a, b)))
  {
    var d := DiffObj(a, b);
    assert |METADATA| != |VERSION|;
    assert METADATA !in d;
    forall k | k in d ensures !MatchesEmptyPatch(d[k]) {
      assert d[k] == DiffAt(a, b, k).value;
    }
  }

  /** Objects with a single member differ in that member alone. */
  lemma DiffOfSingletons(k: string, a: Json, b: Json)
    requires a.Obj? && b.Obj? && a != b
    ensures DiffObj(Obj(map[k := a]), Obj(map[k := b])) == map[k := Obj(DiffObj(a, b))]
  {
    var x, y := Obj(map[k := a]), Obj(map[k := b]);
    DiffEmptyIffEqual(a, b);
    assert DiffAt(x, y, k) == Some(Obj(DiffObj(a, b)));
    assert forall j | j in DiffObj(x, y) :: j == k;
  }

  /** An object whose template carries a version of its own. */
  function WithTemplate(version: string): Doc {
    map[METADATA := Obj(map["name" := Str("a")]), "template" := Obj(map[METADATA := Obj(map[VERSION := Str(version)])])]
  }

  /**
   Without that condition a real change can be dropped: here the template of the object changes its
   own version, the unanchored expression matches inside the patch, and the patch is not sent.
   */
  lemma SkippedPatchCanLoseContent()
    ensures var base, next := WithTemplate("1"), WithTemplate("2");
            Named(next) && EmptyPatch(Diff(base, next)) && !SameUpToVersion(base, next)
  {
    var base, next := WithTemplate("1"), WithTemplate("2");
    var v1, v2 := Obj(map[VERSION := Str("1")]), Obj(map[VERSION := Str("2")]);
    assert v1.fields[VERSION] != v2.fields[VERSION] by { assert "1"[0] != "2"[0]; }
    DiffOfSingletons(METADATA, v1, v2);
    assert DiffAt(v1, v2, VERSION) == Some(Str("2"));
    assert DiffObj(v1, v2) == map[VERSION := Str("2")];
    var inner: Doc := map[METADATA := Obj(map[VERSION := Str("2")])];
    assert OnlyVersion(inner) by { assert AllDigits("2"); }
    var t1, t2 := base["template"], next["template"];
    assert DiffObj(t1, t2) == inner;
    assert DiffAt(Obj(base), Obj(next), "template") == Some(Obj(inner));
    assert Diff(base, next)["template"] == Obj(inner);
    assert MatchesEmptyPatch(Diff(base, next)["template"]);
    assert EraseVersion(base)["template"] != EraseVersion(next)["template"];
  }

  /** The patch that is skipped, and some that are not. */
  lemma EmptyPatchExamples()
    ensures EmptyPatch(map["metadata" := Obj(map["resourceVersion" := Str("123")])])
    ensures !EmptyPatch(map[])
    ensures !EmptyPatch(map["metadata" := Obj(map["resourceVersion" := Str("12a")])])
    ensures !EmptyPatch(map["metadata" := Obj(map["resourceVersion" := Str("12"), "name" := Str("a")])])
  {
    assert AllDigits("123");
    assert "12a"[2] == 'a';
    assert |"metadata"| != |"resourceVersion"| && |"name"| != |"resourceVersion"|;
    var named := map["resourceVersion" := Str("12"), "name" := Str("a")];
    assert "name" in named;
    assert !OnlyVersion(named) && !OnlyVersion(map["resourceVersion" := Str("12a")]) by {
      assert "resourceVersion" in named && "resourceVersion" in map["resourceVersion" := Str("12a")];
    }
  }

  /** It also matches within an array, for the expression is not anchored. */
  lemma EmptyPatchInArray()
    ensures EmptyPatch(map["items" := Arr([Obj(map["metadata" := Obj(map["resourceVersion" := Str("1")])])])])
  {
    var inner: Doc := map["metadata" := Obj(map["resourceVersion" := Str("1")])];
    assert OnlyVersion(inner) by { assert AllDigits("1"); }
    var items := [Obj(inner)];
    assert MatchesEmptyPatch(items[0]);
    var p: Doc := map["items" := Arr(items)];
    assert MatchesEmptyPatch(p["items"]);
  }
}
