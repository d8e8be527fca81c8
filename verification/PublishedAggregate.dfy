/** What the reports in a published aggregate still carry after redaction. */
module PublishedAggregate {
  import opened JsonValues
  import opened JsonPositions
  import opened ReleaseAggregate
  import opened Redaction

  const BOUND := {"releaseCommit", "sourceTree", "contractDigest"}

  lemma {:induction false} StepIn(v: Json, s: Step, path: Path)
    ensures At(v, [s] + path) == if Child(v, s).None? then None else At(Child(v, s).value, path)
  {
    assert ([s] + path)[1..] == path;
  }

  lemma {:induction false} FieldOf(v: Json, key: string)
    requires Get(v, key).Str?
    ensures At(v, [Key(key)]) == Some(Get(v, key))
  {
    StepIn(v, Key(key), []);
    assert [Key(key)] + [] == [Key(key)];
  }

  lemma {:induction false} IdentityIn(v: Json, owner: string, key: string)
    requires Get(Get(v, owner), key).Str?
    ensures At(v, [Key(owner), Key(key)]) == Some(Get(Get(v, owner), key))
  {
    StepIn(v, Key(owner), [Key(key)]);
    FieldOf(Get(v, owner), key);
    assert [Key(owner)] + [Key(key)] == [Key(owner), Key(key)];
  }

  lemma {:induction false} AggregateParts(identity: Json, profile: string, reports: seq<Json>, status: Json, key: string)
    requires key in BOUND
    ensures var a := Aggregate(identity, profile, reports, status);
      Get(a, "reports") == Arr(reports) && Find(a.fields, "reports").Some? && Get(Get(a, "releaseIdentity"), key) == Get(identity, key)
  {
    AggregateHolds(identity, profile, reports, status);
  }

  /** What the aggregate is made of, position by position. */
  lemma {:induction false} AggregateHolds(identity: Json, profile: string, reports: seq<Json>, status: Json)
    ensures var a := Aggregate(identity, profile, reports, status);
      && a.Obj? && UniqueKeys(a.fields)
      && Keys(a.fields) == {"schemaVersion", "releaseIdentity", "reports", "producerStatus", "outcome"}
      && Get(a, "schemaVersion") == Str("release-contract-aggregate/v1")
      && Get(a, "reports") == Arr(reports) && Get(a, "producerStatus") == status
      && IsOwnIdentity(Get(a, "releaseIdentity"), identity, profile) && IsPass(Get(a, "outcome"))
  {
    var fs := Aggregate(identity, profile, reports, status).fields;
    AggregateFields(fs, fs[1].value, reports, status, fs[4].value);
    OwnIdentity(fs[1].value.fields, identity, profile);
    PassHolds(fs[4].value.fields);
  }

  lemma {:induction false} AggregateFields(fs: seq<Field>, own: Json, reports: seq<Json>, status: Json, outcome: Json)
    requires fs == [Field("schemaVersion", Str("release-contract-aggregate/v1")), Field("releaseIdentity", own),
                    Field("reports", Arr(reports)), Field("producerStatus", status), Field("outcome", outcome)]
    ensures UniqueKeys(fs) && Keys(fs) == {"schemaVersion", "releaseIdentity", "reports", "producerStatus", "outcome"}
    ensures Find(fs, "schemaVersion") == Some(Str("release-contract-aggregate/v1")) && Find(fs, "releaseIdentity") == Some(own)
    ensures Find(fs, "reports") == Some(Arr(reports)) && Find(fs, "producerStatus") == Some(status)
    ensures Find(fs, "outcome") == Some(outcome)
  {
    var keys := ["schemaVersion", "releaseIdentity", "reports", "producerStatus", "outcome"];
    FindEach(fs, keys);
    assert Find(fs, keys[0]) == Some(fs[0].value) && Find(fs, keys[1]) == Some(fs[1].value)
      && Find(fs, keys[2]) == Some(fs[2].value) && Find(fs, keys[3]) == Some(fs[3].value) && Find(fs, keys[4]) == Some(fs[4].value);
  }

  /** The trusted identity as the aggregate states it. */
  predicate IsOwnIdentity(own: Json, identity: Json, profile: string) {
    && own.Obj? && UniqueKeys(own.fields)
    && Keys(own.fields) == {"releaseCommit", "sourceTree", "contractDigest", "deploymentProfile", "dirty", "evidenceClass"}
    && Get(own, "releaseCommit") == Get(identity, "releaseCommit") && Get(own, "sourceTree") == Get(identity, "sourceTree")
    && Get(own, "contractDigest") == Get(identity, "contractDigest") && Get(own, "deploymentProfile") == Str(profile)
    && Get(own, "dirty") == Bool(false) && Get(own, "evidenceClass") == Str("repository-local")
  }

  predicate IsPass(outcome: Json) {
    && outcome.Obj? && UniqueKeys(outcome.fields) && Keys(outcome.fields) == {"result", "errorCodes", "skippedChecks"}
    && Get(outcome, "result") == Str("pass") && Get(outcome, "errorCodes") == Arr([]) && Get(outcome, "skippedChecks") == Arr([])
  }

  lemma {:induction false} OwnIdentity(own: seq<Field>, identity: Json, profile: string)
    requires own == [
        Field("releaseCommit", Get(identity, "releaseCommit")), Field("sourceTree", Get(identity, "sourceTree")),
        Field("contractDigest", Get(identity, "contractDigest")), Field("deploymentProfile", Str(profile)),
        Field("dirty", Bool(false)), Field("evidenceClass", Str("repository-local"))]
    ensures IsOwnIdentity(Obj(own), identity, profile)
  {
    var keys := ["releaseCommit", "sourceTree", "contractDigest", "deploymentProfile", "dirty", "evidenceClass"];
    FindEach(own, keys);
    assert Find(own, keys[0]) == Some(own[0].value) && Find(own, keys[1]) == Some(own[1].value)
      && Find(own, keys[2]) == Some(own[2].value) && Find(own, keys[3]) == Some(own[3].value)
      && Find(own, keys[4]) == Some(own[4].value) && Find(own, keys[5]) == Some(own[5].value);
  }

  lemma {:induction false} PassHolds(fs: seq<Field>)
    requires fs == [Field("result", Str("pass")), Field("errorCodes", Arr([])), Field("skippedChecks", Arr([]))]
    ensures IsPass(Obj(fs))
  {
    FindFirst(fs, 0);
    FindFirst(fs, 1);
    FindFirst(fs, 2);
    assert fs[0] in fs && fs[1] in fs && fs[2] in fs;
  }

  lemma {:induction false} ValuesWellFormed(fs: seq<Field>, own: Json, reports: seq<Json>, status: Json, outcome: Json)
    requires fs == [Field("schemaVersion", Str("release-contract-aggregate/v1")), Field("releaseIdentity", own),
                    Field("reports", Arr(reports)), Field("producerStatus", status), Field("outcome", outcome)]
    requires WellFormed(own) && WellFormed(status) && WellFormed(outcome) && WellFormed(Arr(reports))
    ensures WellFormed(Obj(fs))
  {
    AggregateFields(fs, own, reports, status, outcome);
  }

  lemma {:induction false} OwnWellFormed(own: seq<Field>, identity: Json, profile: string)
    requires WellFormed(identity) && UniqueKeys(own)
    requires own == [
        Field("releaseCommit", Get(identity, "releaseCommit")), Field("sourceTree", Get(identity, "sourceTree")),
        Field("contractDigest", Get(identity, "contractDigest")), Field("deploymentProfile", Str(profile)),
        Field("dirty", Bool(false)), Field("evidenceClass", Str("repository-local"))]
    ensures WellFormed(Obj(own))
  {
    GetWellFormed(identity, "releaseCommit");
    GetWellFormed(identity, "sourceTree");
    GetWellFormed(identity, "contractDigest");
  }

  lemma {:induction false} PassWellFormed(fs: seq<Field>)
    requires UniqueKeys(fs)
    requires fs == [Field("result", Str("pass")), Field("errorCodes", Arr([])), Field("skippedChecks", Arr([]))]
    ensures WellFormed(Obj(fs))
  {
  }

  lemma {:induction false} AggregateWellFormed(identity: Json, profile: string, reports: seq<Json>, status: Json)
    requires WellFormed(identity) && WellFormed(status) && WellFormed(Arr(reports))
    ensures WellFormed(Aggregate(identity, profile, reports, status))
  {
    var fs := Aggregate(identity, profile, reports, status).fields;
    OwnIdentity(fs[1].value.fields, identity, profile);
    OwnWellFormed(fs[1].value.fields, identity, profile);
    PassHolds(fs[4].value.fields);
    PassWellFormed(fs[4].value.fields);
    ValuesWellFormed(fs, fs[1].value, reports, status, fs[4].value);
  }

  /** Apart from the note on redaction, the published aggregate is the redaction of the aggregate; the note states the
      number of replaced positions. */
  lemma {:induction false} PublishedNote(p: Policy, identity: Json, profile: string, reports: seq<Json>, status: Json)
      returns (hits: set<Path>)
    requires PublishList(p, identity, profile, reports, status).Ok?
    requires WellFormed(identity) && WellFormed(status) && WellFormed(Arr(reports))
    ensures var a, v := Aggregate(identity, profile, reports, status), PublishList(p, identity, profile, reports, status).value;
      && (forall path :: path in hits <==> IsHit(p, a, None, path))
      && At(v, [Key("redaction"), Key("redactedValueCount")]) == Some(Num(|hits|))
      && At(v, [Key("redaction"), Key("schemaVersion")]) == Some(Str("release-contract-redaction/v1"))
      && At(v, [Key("redaction"), Key("policyVersion")]) == Some(Str("v1"))
  {
    var a := Aggregate(identity, profile, reports, status);
    AggregateWellFormed(identity, profile, reports, status);
    hits := CountIsExact(p, a);
    NoteHolds(Redact(p, a, None).value.0, |hits|);
  }

  lemma {:induction false} NoteHolds(v: Json, count: nat)
    requires v.Obj?
    ensures var r := WithRedactionNote(v, count);
      && At(r, [Key("redaction"), Key("redactedValueCount")]) == Some(Num(count))
      && At(r, [Key("redaction"), Key("schemaVersion")]) == Some(Str("release-contract-redaction/v1"))
      && At(r, [Key("redaction"), Key("policyVersion")]) == Some(Str("v1"))
  {
    var note := Obj([
        Field("schemaVersion", Str("release-contract-redaction/v1")),
        Field("policyVersion", Str("v1")),
        Field("redactedValueCount", Num(count))]);
    FindSet(v.fields, "redaction", note, "redaction");
    FindFirst(note.fields, 0);
    FindFirst(note.fields, 1);
    FindFirst(note.fields, 2);
    var r := WithRedactionNote(v, count);
    StepIn(r, Key("redaction"), [Key("redactedValueCount")]);
    StepIn(r, Key("redaction"), [Key("schemaVersion")]);
    StepIn(r, Key("redaction"), [Key("policyVersion")]);
    StepIn(note, Key("redactedValueCount"), []);
    StepIn(note, Key("schemaVersion"), []);
    StepIn(note, Key("policyVersion"), []);
    assert [Key("redaction")] + [Key("redactedValueCount")] == [Key("redaction"), Key("redactedValueCount")];
    assert [Key("redaction")] + [Key("schemaVersion")] == [Key("redaction"), Key("schemaVersion")];
    assert [Key("redaction")] + [Key("policyVersion")] == [Key("redaction"), Key("policyVersion")];
    assert [Key("redactedValueCount")] + [] == [Key("redactedValueCount")];
    assert [Key("schemaVersion")] + [] == [Key("schemaVersion")];
    assert [Key("policyVersion")] + [] == [Key("policyVersion")];
  }

  /** At every other position the published aggregate shows what redaction leaves of the aggregate there. */
  lemma {:induction false} PublishedElsewhere(
      p: Policy, identity: Json, profile: string, reports: seq<Json>, status: Json, key: string, path: Path)
    requires PublishList(p, identity, profile, reports, status).Ok? && key != "redaction"
    ensures var a, v := Aggregate(identity, profile, reports, status), PublishList(p, identity, profile, reports, status).value;
      && (At(v, [Key(key)] + path).Some? <==> At(a, [Key(key)] + path).Some? && Exposed(p, None, [Key(key)] + path))
      && (At(v, [Key(key)] + path).Some? ==>
            var kept := Redact(p, At(a, [Key(key)] + path).value, KeyAt(None, [Key(key)] + path));
            kept.Some? && At(v, [Key(key)] + path).value == kept.value.0)
  {
    var a := Aggregate(identity, profile, reports, status);
    var redacted := Redact(p, a, None).value;
    NoteApart(redacted.0, redacted.1, key, path);
    RedactAt(p, a, None, [Key(key)] + path);
  }

  lemma {:induction false} NoteApart(v: Json, count: nat, key: string, path: Path)
    requires v.Obj? && key != "redaction"
    ensures At(WithRedactionNote(v, count), [Key(key)] + path) == At(v, [Key(key)] + path)
  {
    var note := WithRedactionNote(v, count);
    FindSet(v.fields, "redaction", Obj([
        Field("schemaVersion", Str("release-contract-redaction/v1")),
        Field("policyVersion", Str("v1")),
        Field("redactedValueCount", Num(count))]), key);
    StepIn(note, Key(key), path);
    StepIn(v, Key(key), path);
  }

  lemma {:induction false} ReportPosition(a: Json, reports: seq<Json>, k: nat, key: string)
    requires Get(a, "reports") == Arr(reports) && k < |reports| && Get(Get(reports[k], "releaseIdentity"), key).Str?
    ensures At(a, [Key("reports"), Index(k), Key("releaseIdentity"), Key(key)])
         == Some(Get(Get(reports[k], "releaseIdentity"), key))
  {
    var path := [Key("releaseIdentity"), Key(key)];
    IdentityIn(reports[k], "releaseIdentity", key);
    StepIn(Arr(reports), Index(k), path);
    StepIn(a, Key("reports"), [Index(k)] + path);
    assert [Key("reports")] + ([Index(k)] + path) == [Key("reports"), Index(k), Key("releaseIdentity"), Key(key)];
  }

  lemma {:induction false} StepDown(p: Policy, key: Option<string>, s: Step, path: Path)
    ensures Exposed(p, key, [s] + path) <==> !Sensitive(p, key) && Exposed(p, KeyOf(key, s), path)
    ensures KeyAt(key, [s] + path) == KeyAt(KeyOf(key, s), path)
  {
    assert ([s] + path)[1..] == path;
  }

  lemma {:induction false} OwnExposed(p: Policy, above: Option<string>, key: string)
    ensures var path := [Key("releaseIdentity"), Key(key)];
      (Exposed(p, above, path) <==> !Sensitive(p, above) && !p.sensitive("releaseIdentity")) && KeyAt(above, path) == Some(key)
  {
    StepDown(p, Some("releaseIdentity"), Key(key), []);
    StepDown(p, above, Key("releaseIdentity"), [Key(key)]);
    assert [Key(key)] + [] == [Key(key)];
    assert [Key("releaseIdentity")] + [Key(key)] == [Key("releaseIdentity"), Key(key)];
  }

  lemma {:induction false} BothExposed(p: Policy, k: nat, key: string)
    requires !p.sensitive("reports")
    ensures Exposed(p, None, [Key("reports"), Index(k), Key("releaseIdentity"), Key(key)]) <==> !p.sensitive("releaseIdentity")
    ensures Exposed(p, None, [Key("releaseIdentity"), Key(key)]) <==> !p.sensitive("releaseIdentity")
    ensures KeyAt(None, [Key("reports"), Index(k), Key("releaseIdentity"), Key(key)]) == Some(key)
    ensures KeyAt(None, [Key("releaseIdentity"), Key(key)]) == Some(key)
  {
    var path := [Key("releaseIdentity"), Key(key)];
    OwnExposed(p, None, key);
    OwnExposed(p, Some("reports"), key);
    StepDown(p, Some("reports"), Index(k), path);
    StepDown(p, None, Key("reports"), [Index(k)] + path);
    assert [Key("reports")] + ([Index(k)] + path) == [Key("reports"), Index(k), Key("releaseIdentity"), Key(key)];
  }

  /** The same string at two positions that are exposed alike, under the same key, is redacted alike. */
  lemma {:induction false} SameStringSameRedaction(p: Policy, v: Json, one: Path, other: Path, s: Json)
    requires Redact(p, v, None).Some? && s.Str? && At(v, one) == Some(s) && At(v, other) == Some(s)
    requires KeyAt(None, one) == KeyAt(None, other) && (Exposed(p, None, one) <==> Exposed(p, None, other))
    ensures At(Redact(p, v, None).value.0, one) == At(Redact(p, v, None).value.0, other)
    ensures Exposed(p, None, one) && !Sensitive(p, KeyAt(None, one)) && !Private(p, KeyAt(None, one), s.s) ==>
      At(Redact(p, v, None).value.0, one) == Some(s)
  {
    RedactAt(p, v, None, one);
    RedactAt(p, v, None, other);
    ClassifiedByPolicy(p, KeyAt(None, one), s.s);
  }

  /** In a published aggregate every report that carried the trusted identity shows, for commit, source tree and contract
      digest, exactly what the aggregate shows for itself; and that is the trusted value, where the classifiers leave it
      alone. */
  lemma {:induction false} PublishedIdentity(
      p: Policy, identity: Json, profile: string, reports: seq<Json>, status: Json, k: nat, key: string)
    requires PublishList(p, identity, profile, reports, status).Ok? && !p.sensitive("reports")
    requires k < |reports| && CarriesIdentity(reports[k], identity, profile)
    requires key in BOUND && Get(identity, key).Str?
    ensures var v := PublishList(p, identity, profile, reports, status).value;
      var own := At(v, [Key("releaseIdentity"), Key(key)]);
      && At(v, [Key("reports"), Index(k), Key("releaseIdentity"), Key(key)]) == own
      && (!p.sensitive("releaseIdentity") && !p.sensitive(key) && !Private(p, Some(key), Get(identity, key).s) ==>
            own == Some(Get(identity, key)))
  {
    var a := Aggregate(identity, profile, reports, status);
    var redacted := Redact(p, a, None).value;
    var inReport := [Key("reports"), Index(k), Key("releaseIdentity"), Key(key)];
    var ownPath := [Key("releaseIdentity"), Key(key)];
    AggregateParts(identity, profile, reports, status, key);
    ReportPosition(a, reports, k, key);
    IdentityIn(a, "releaseIdentity", key);
    BothExposed(p, k, key);
    SameStringSameRedaction(p, a, inReport, ownPath, Get(identity, key));
    NoteApart(redacted.0, redacted.1, "reports", inReport[1..]);
    NoteApart(redacted.0, redacted.1, "releaseIdentity", ownPath[1..]);
    assert [Key("reports")] + inReport[1..] == inReport && [Key("releaseIdentity")] + ownPath[1..] == ownPath;
  }
}
