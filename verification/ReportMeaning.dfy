/** Which reports and identities the aggregate accepts, told key by key. */
module ReportMeaning {
  import opened JsonValues
  import opened ReportDirectory
  import opened ReleaseAggregate

  /** A dict with these keys and no others. */
  ghost predicate HasExactly(j: Json, keys: set<string>) {
    j.Obj? && forall key :: Has(j, key) <==> key in keys
  }

  lemma {:induction false} KeysExactly(j: Json, keys: set<string>)
    ensures ExactKeys(j, keys) <==> HasExactly(j, keys)
  {
    forall key ensures Has(j, key) <==> j.Obj? && key in Keys(j.fields) {
      KeyPresent(j, key);
    }
    if HasExactly(j, keys) {
      forall key ensures key in Keys(j.fields) <==> key in keys {
      }
    }
  }

  // ---------------------------------------------------------------- digests, commits and file names

  /** Lower-case hexadecimal digits. */
  predicate HexText(t: string) { forall i :: 0 <= i < |t| ==> t[i] in "0123456789abcdef" }

  lemma {:induction false} HexExactly(c: char)
    ensures IsHex(c) <==> c in "0123456789abcdef"
  {
    var digits := "0123456789abcdef";
    if IsHex(c) {
      var k := if c <= '9' then c as int - '0' as int else c as int - 'a' as int + 10;
      assert digits[k] == c;
    }
  }

  lemma {:induction false} DigestExactly(s: string)
    ensures IsDigest(s) <==> exists t :: |t| == 64 && HexText(t) && s == "sha256:" + t
  {
    if IsDigest(s) {
      var t := s[7..];
      forall i | 0 <= i < |t| ensures t[i] in "0123456789abcdef" {
        assert IsHex(s[i + 7]);
        HexExactly(s[i + 7]);
      }
      assert |t| == 64 && HexText(t) && s == "sha256:" + t;
    }
    if t :| |t| == 64 && HexText(t) && s == "sha256:" + t {
      forall i | 7 <= i < 71 ensures IsHex(s[i]) {
        assert s[i] == t[i - 7];
        HexExactly(s[i]);
      }
    }
  }

  lemma {:induction false} CommitExactly(s: string)
    ensures IsCommit(s) <==> |s| == 40 && HexText(s)
  {
    forall i | 0 <= i < |s| ensures IsHex(s[i]) <==> s[i] in "0123456789abcdef" {
      HexExactly(s[i]);
    }
  }

  /** A report's file is named `something.json`. */
  lemma {:induction false} SuffixExactly(name: string)
    ensures JsonSuffix(name) <==> exists stem :: stem != "" && name == stem + ".json"
  {
    if JsonSuffix(name) {
      var n := |name| - |".json"|;
      assert name == name[..n] + name[n..] && name[..n] != "";
    }
  }

  // ---------------------------------------------------------------- the trusted identity

  ghost predicate IsDigestText(v: Json) { v.Str? && exists t :: |t| == 64 && HexText(t) && v.s == "sha256:" + t }

  predicate IsCommitText(v: Json) { v.Str? && |v.s| == 40 && HexText(v.s) }

  ghost predicate Trustworthy(j: Json) {
    && HasExactly(j, {"schemaVersion", "releaseCommit", "sourceTree", "contractDigest", "dirty", "evidenceClass"})
    && Get(j, "schemaVersion") == Str("build-identity/v1")
    && IsCommitText(Get(j, "releaseCommit")) && IsCommitText(Get(j, "sourceTree")) && IsDigestText(Get(j, "contractDigest"))
    && Get(j, "dirty") == Bool(false) && Get(j, "evidenceClass") == Str("repository-local")
  }

  lemma {:induction false} TrustedExactly(j: Json)
    ensures TrustedIdentity(j) <==> Trustworthy(j)
  {
    KeysExactly(j, {"schemaVersion", "releaseCommit", "sourceTree", "contractDigest", "dirty", "evidenceClass"});
    if Get(j, "releaseCommit").Str? {
      CommitExactly(Get(j, "releaseCommit").s);
    }
    if Get(j, "sourceTree").Str? {
      CommitExactly(Get(j, "sourceTree").s);
    }
    if Get(j, "contractDigest").Str? {
      DigestExactly(Get(j, "contractDigest").s);
    }
  }

  // ---------------------------------------------------------------- one report

  /** The typed verifier passed the report for this surface. */
  ghost predicate VerifierPassed(status: Json, surface: string) {
    && HasExactly(status, {"schemaVersion", "surface", "result", "evidenceClass"})
    && Get(status, "schemaVersion") == Str("surface-report/v1") && Get(status, "surface") == Str(surface)
    && Get(status, "result") == Str("pass") && Get(status, "evidenceClass") == Str("repository-local")
  }

  /** The report carries the trusted identity, for the profile and from a clean tree. */
  ghost predicate SameRelease(release: Json, identity: Json, profile: string) {
    && HasExactly(release, {"releaseCommit", "sourceTree", "contractDigest", "deploymentProfile", "dirty", "evidenceClass"})
    && Get(release, "releaseCommit") == Get(identity, "releaseCommit")
    && Get(release, "sourceTree") == Get(identity, "sourceTree")
    && Get(release, "contractDigest") == Get(identity, "contractDigest")
    && Get(release, "deploymentProfile") == Str(profile)
    && (Get(release, "dirty") == Bool(false) || Get(release, "dirty") == Num(0))
    && Get(release, "evidenceClass") == Str("repository-local")
  }

  /** The report is about the surface, as the table of surfaces describes it, and digests of both sides are given. */
  ghost predicate AboutSurface(about: Json, surface: string) {
    && HasExactly(about, {"surface", "canonicalSource", "consumer", "version", "sourceDigest", "consumerDigest"})
    && Get(about, "surface") == Str(surface) && ExpectedKey(surface).Some?
    && Get(about, "canonicalSource") == Str(ExpectedKey(surface).value.0)
    && Get(about, "consumer") == Str(ExpectedKey(surface).value.1)
    && Get(about, "version") == Str(ExpectedKey(surface).value.2)
    && IsDigestText(Get(about, "sourceDigest")) && IsDigestText(Get(about, "consumerDigest"))
  }

  /** Nothing drifted, nothing failed, nothing was skipped, and the evidence is the repository's own. */
  ghost predicate CleanOutcome(drift: Json, outcome: Json, evidence: Json) {
    && HasExactly(drift, {"missing", "extra", "incompatible"})
    && Get(drift, "missing") == Get(drift, "extra") == Get(drift, "incompatible") == Arr([])
    && HasExactly(outcome, {"result", "errorCodes", "skippedChecks"})
    && Get(outcome, "result") == Str("pass") && Get(outcome, "errorCodes") == Get(outcome, "skippedChecks") == Arr([])
    && HasExactly(evidence, {"class", "environment", "mode", "checkedAt", "toolVersions", "details"})
    && Get(evidence, "class") == Str("repository-local")
  }

  lemma {:induction false} VerifierExactly(status: Json, surface: string)
    ensures VerifierPassed(status, surface) <==>
      ExactKeys(status, {"schemaVersion", "surface", "result", "evidenceClass"})
      && Get(status, "schemaVersion") == Str("surface-report/v1") && Get(status, "surface") == Str(surface)
      && Get(status, "result") == Str("pass") && Get(status, "evidenceClass") == Str("repository-local")
  {
    KeysExactly(status, {"schemaVersion", "surface", "result", "evidenceClass"});
  }

  lemma {:induction false} ReleaseExactly(report: Json, identity: Json, profile: string)
    ensures SameRelease(Get(report, "releaseIdentity"), identity, profile) <==>
      ExactKeys(Get(report, "releaseIdentity"),
                {"releaseCommit", "sourceTree", "contractDigest", "deploymentProfile", "dirty", "evidenceClass"})
      && CarriesIdentity(report, identity, profile)
  {
    KeysExactly(Get(report, "releaseIdentity"),
                {"releaseCommit", "sourceTree", "contractDigest", "deploymentProfile", "dirty", "evidenceClass"});
  }

  lemma {:induction false} AboutExactly(about: Json, surface: string)
    ensures AboutSurface(about, surface) <==>
      ExactKeys(about, {"surface", "canonicalSource", "consumer", "version", "sourceDigest", "consumerDigest"})
      && Get(about, "surface") == Str(surface) && ExpectedKey(surface).Some?
      && Get(about, "canonicalSource") == Str(ExpectedKey(surface).value.0)
      && Get(about, "consumer") == Str(ExpectedKey(surface).value.1)
      && Get(about, "version") == Str(ExpectedKey(surface).value.2)
      && Get(about, "sourceDigest").Str? && IsDigest(Get(about, "sourceDigest").s)
      && Get(about, "consumerDigest").Str? && IsDigest(Get(about, "consumerDigest").s)
  {
    KeysExactly(about, {"surface", "canonicalSource", "consumer", "version", "sourceDigest", "consumerDigest"});
    if Get(about, "sourceDigest").Str? {
      DigestExactly(Get(about, "sourceDigest").s);
    }
    if Get(about, "consumerDigest").Str? {
      DigestExactly(Get(about, "consumerDigest").s);
    }
  }

  lemma {:induction false} OutcomeExactly(report: Json)
    ensures CleanOutcome(Get(report, "drift"), Get(report, "outcome"), Get(report, "evidence")) <==>
      Undrifted(report) && Passed(report)
      && ExactKeys(Get(report, "evidence"), {"class", "environment", "mode", "checkedAt", "toolVersions", "details"})
      && Get(Get(report, "evidence"), "class") == Str("repository-local")
  {
    KeysExactly(Get(report, "drift"), {"missing", "extra", "incompatible"});
    KeysExactly(Get(report, "outcome"), {"result", "errorCodes", "skippedChecks"});
    KeysExactly(Get(report, "evidence"), {"class", "environment", "mode", "checkedAt", "toolVersions", "details"});
  }

  /** A report is accepted for a surface exactly when the typed verifier passed it for that surface, it carries the trusted
      identity, it is about the surface, and its outcome is clean. */
  lemma {:induction false} ReportExactly(report: Json, status: Json, identity: Json, profile: string, surface: string)
    ensures Judge(report, status, identity, profile) == Ok(surface) <==>
      HasExactly(report, {"schemaVersion", "releaseIdentity", "surfaceIdentity", "drift", "evidence", "outcome"})
      && VerifierPassed(status, surface) && SameRelease(Get(report, "releaseIdentity"), identity, profile)
      && AboutSurface(Get(report, "surfaceIdentity"), surface)
      && CleanOutcome(Get(report, "drift"), Get(report, "outcome"), Get(report, "evidence"))
  {
    KeysExactly(report, {"schemaVersion", "releaseIdentity", "surfaceIdentity", "drift", "evidence", "outcome"});
    VerifierExactly(status, surface);
    ReleaseExactly(report, identity, profile);
    AboutExactly(Get(report, "surfaceIdentity"), surface);
    OutcomeExactly(report);
  }

  /** Everything but the reports is in order exactly for the monolith profile, with a verifier that is a file, a trustworthy
      identity and a producer status. */
  lemma {:induction false} ArgumentsExactly(profile: string, verifierIsFile: bool, identity: Json, producerStatus: Option<Json>)
    ensures ArgumentsOk(profile, verifierIsFile, identity, producerStatus) <==>
      profile == "monolith" && verifierIsFile && Trustworthy(identity) && producerStatus.Some?
  {
    TrustedExactly(identity);
  }
}
