# Release-contract tooling: a verified model

The repository's release tooling decides whether a release may be published: it searches an OpenAPI document for the
response envelope, computes digests that cover files which themselves store the digests, collects reports from a directory
that another process may be changing, redacts what is published, projects the OpenAPI document to a route manifest and
compares manifests, and checks protobuf, frontend and audit inventories. This project models that logic in Dafny and proves
what each part is for. Python dicts are sequences of fields in insertion order; `JsonValues.Same` is equality of JSON values up
to key order, which is finer than Python's own `==` (`True == 1` there). SHA-256 is an arbitrary function assumed collision-free
only on texts that a lemma names, and exceptions are results.

`dafny verify dfyconfig.toml` checks everything.

## The parts

| part | files |
|---|---|
| strings, sequences, sorting, JSON values, canonical printing, JSON Pointer | `Text`, `Distinctness`, `Sorting`, `Orders`, `JsonValues`, `JsonPositions`, `CanonicalJson`, `PrintedJson`, `JsonPointer` |
| envelope search over a cyclic document graph | `EnvelopeSearch`, `EnvelopeReachability`, `EnvelopeGate`, `EnvelopePositions` |
| self-referential release digests | `ReleaseDigests`, `DigestFixedPoint`, `DigestMeaning`, `DigestGuard`, `DigestAcceptance`, `DigestCoverage`, `RefreshedManifest`, `FaithfulReading`, `AliasedDigests` |
| descriptor-anchored traversal, report collection, redaction | `Descriptors`, `ReportDirectory`, `SurfaceCollection`, `ReleaseAggregate`, `ReportMeaning`, `Redaction`, `PublishedAggregate` |
| OpenAPI projection: the code, and what it means | `PathNames`, `PathTemplates`, `OperationUnits`, `OperationRows`, `OperationSurface`; `RequestMeaning`, `ResponseMeaning`, `OperationMeaning`, `UnitMeaning`, `DocumentMeaning`; `OperationCanon`, `OperationOrder` |
| manifest validation, manifest differences | `SurfaceRows`, `ManifestValidation`, `ManifestRules`, `ManifestDigests`, `ResponseClashes`, `ClashingDocument`, `Flattening`, `RowFlattening`, `ProjectionDiff`, `DifferenceMeaning` |
| protobuf exact cover | `ExactCover`, `ProtobufRows`, `ProtobufChecks`, `ProtobufCover`, `ProtobufRules`, `ProtobufMeaning` |
| audit documents | `MarkdownTables`, `MarkdownRendering`, `LineMeaning`, `ValidationAudit`, `AuditMeaning` |
| the two release projections, media types | `ReleaseProjection`, `PayloadMeaning`, `GeneratorMeaning`, `MediaTypes`, `MediaMeaning` |

In every part the loops and in-place updates of the source are methods, each proved against a function that says what it
computes; the main theorems are lemmas about those functions. What such a function accepts and yields is then said once more
from outside: the lemmas named `...Exactly`, and those in the files named `...Meaning`, describe the outcome by what stands at
the positions of the input and by the literal keys and words that the code's readers agree on, without the functions by which
the code gets there.

The other actor of the directory traversal is a `World`: functions from the moment in time to what every directory lists, what
every file holds and whether the kernel refuses a call, so a theorem for all worlds is a theorem for every interleaving of
renames, deletions and symlink swaps and for every point of failure. Every system call takes one moment of the process's clock,
and what a run is said to have seen, it saw between the clock's values before and after the call. A refused `close` still gives
up its descriptor, as on Linux, which the walk's platform check demands.

Four statements turned out to need a condition, and the condition is exact.

- The descriptor ledger of the walk (`Descriptors.Process.OpenReportDirectory`) is kept exactly when the kernel refuses no
  `fstat` on the way, no `close` of a directory on the way, and not the `close` of the root once the last directory is open.
  The code does not guard those calls: a refused `fstat` leaves its descriptor open, and a refused `close` of a parent leaves
  the child and the root open and makes the `finally` block close the parent again. In particular it is kept when the kernel
  refuses no call between the clock's values before and after the walk. `Descriptors.RefusalBreaksLedger` runs the walk in two
  such worlds.
- Writing the digests is a fixed point when no artifact's id names the manifest and only the strict one names the strict body's
  file; the script does not check this. On files that do not already record what the run is about to write
  (`DigestGuard.Fresh`), it is a fixed point exactly then (`DigestGuard.FixedPointIffUnaliased`).
  `AliasedDigests.SettlesUnlessAliased` gives a manifest whose artifact id `m` names the manifest itself: the run succeeds and
  the next one finds other digests.
- A published value is a fixed point of redaction exactly when every replacement string in it is one the classifiers leave
  alone (`Redaction.PublishedIsFixed`). A file below a directory named `~` in the repository is published as `~/x`, which is
  redacted when met again (`Redaction.PublishedNotFixed`).
- A projection passes the manifest validator exactly when no operation in scope lists, under one success status, two media
  types equal after lower-casing with the same schema identity (`ResponseClashes.ProjectionPassesUnlessClash`);
  `ClashingDocument.ProjectsAndIsRefused` is a whole document that projects and is then refused.

What another process may do in the report directory is bounded from both sides. In every world an accepted aggregate was built
as the code intends; and when nobody interferes and the kernel refuses nothing (`Descriptors.Calm`), the walk, the listing, every
look and read, the collection and the aggregate succeed exactly where a function of the directory says (`Descriptors.Walk`,
`ReportDirectory.Ready`, `SurfaceCollection.CalmReports`, `ReleaseAggregate.CalmAggregate`).

Two flattened rows agree under every name exactly when they hold the same leaf, or none or null, at every position
(`Flattening.FlatAgreement`); on manifest rows that is equality, and Python's coarser comparison of leaves makes no difference
there (`RowFlattening.OperationsComparedAsPython`), because no row holds a number.

## Model

| member | source | states |
|---|---|---|
| EnvelopeSearch.SchemaRefsEnvelope | scripts/verify_openapi_contract.py:273-288 | The recursive search with its shared mutable `seen` set terminates and returns the specified verdict, leaving exactly the specified marks in the caller's set |
| EnvelopeReachability.SearchDecidesReachability | scripts/verify_openapi_contract.py:273-288 | The search answers yes only if the Envelope is reachable, no only if it is not, and raises only where a reference that cannot be followed is reachable; with every reference resolvable it decides reachability, cycles included |
| EnvelopeReachability.CutAtLastMark | scripts/verify_openapi_contract.py:280-287 | White-path argument: any path to the goal can be cut at its last marked reference, so references marked by an earlier sibling never hide a path |
| EnvelopeReachability.SearchMeaning | scripts/verify_openapi_contract.py:273-288 | For any marks on entry: yes exhibits a path avoiding them, no excludes every such path and leaves only exhausted new marks |
| EnvelopeReachability.ResponseDecidesRule | scripts/verify_openapi_contract.py:291-305 | The check of a response accepts exactly the responses whose reference chain ends in a dict without JSON content or with a schema that reaches the Envelope; a looping chain is refused |
| EnvelopeReachability.ChainJudgedByEnd | scripts/verify_openapi_contract.py:291-305 | A chain of references that ends is judged by its end, although marks are made on the way |
| EnvelopeSearch.ResponseRefsEnvelope | scripts/verify_openapi_contract.py:291-305 | The recursive response check returns the specified verdict and leaves exactly the references it followed as marks in the caller's set |
| EnvelopeGate.ApiOperations | scripts/verify_openapi_contract.py:172-179 | Yields, in document order, exactly the operations of `/api/` path items under a known method |
| EnvelopeGate.RequireEnvelope | scripts/verify_openapi_contract.py:321-335 | The nested loops compute the specified report: the findings in order, or that the gate raises |
| EnvelopeGate.GateRaises | scripts/verify_openapi_contract.py:321-335 | The gate raises exactly when the document has no path table, or an operation in scope has no response table or a response whose check raises |
| EnvelopeGate.GateMeaning | scripts/verify_openapi_contract.py:321-335 | Where it does not raise, the gate reports exactly the responses in scope that break the rule, and passes exactly when there is none |
| EnvelopePositions.DirectResponse | scripts/verify_openapi_contract.py:291-305 | A response that is no reference is judged by what stands at `content`, `application/json`: no dict there is a yes, and otherwise the verdict decides whether its `schema` reaches the Envelope |
| EnvelopePositions.ReferenceExactly | scripts/verify_openapi_contract.py:292-293 | A dict counts as a reference exactly when its `$ref` is true in Python's sense |
| EnvelopePositions.NoYesWithoutEnvelope | scripts/verify_openapi_contract.py:273-288 | Where neither document nor schema mentions the Envelope's name as a reference, the search never says yes |
| EnvelopePositions.DocumentsExactly | scripts/verify_openapi_contract.py:321-335 | What a finding of the gate is about is the response that stands at `paths`, path, method, `responses`, status of the document, for the paths and methods in scope |
| EnvelopePositions.GateAtPositions | scripts/verify_openapi_contract.py:321-335 | A path, method and status are among the findings exactly when they are in scope and the response standing there breaks the rule |
| EnvelopePositions.GateRaisesAtPositions | scripts/verify_openapi_contract.py:321-335 | The gate raises exactly when `paths` is no dict, or below a path and method in scope the responses are no dict or one of them raises |
| EnvelopePositions.UnreachableIsReported | scripts/verify_openapi_contract.py:302-305 | An operation in scope whose own JSON response has a schema from which the Envelope cannot be reached is among the findings, and only such a one |
| JsonPointer.ResolveRef | scripts/openapi_surface_fingerprint.py:93-103 | The loop over encoded tokens computes the resolution of the reference |
| JsonPointer.PointerRoundTrip | scripts/openapi_surface_fingerprint.py:93-103 | For any non-empty path of keys, whatever characters they hold, escaping, joining and resolving gives exactly the subtree under the path (RFC 6901, sections 3 and 4) |
| JsonPointer.PointerInjective | scripts/openapi_surface_fingerprint.py:93-103 | Different key paths have different pointers |
| JsonPointer.ResolveExactly | scripts/openapi_surface_fingerprint.py:93-103 | A reference resolves to a value exactly if it is `#/` followed by tokens joined with slashes whose decoded tokens lead from dict to dict to that value |
| JsonPointer.WalkCanon | scripts/openapi_surface_fingerprint.py:93-103 | Reordering keys changes no resolution except by key order |
| CanonicalJson.CanonicalInjective | scripts/target_release_digests.py:20-21 | Canonical texts are equal exactly when the values are equal as JSON values up to key order (Python's `==` is coarser: it takes `True` for 1, which print differently) |
| CanonicalJson.DumpDecodes | scripts/target_release_digests.py:20-21 | Compact printing is prefix free: it can be read off the front of any text in one way only |
| PrintedJson.DictText | scripts/target_release_digests.py:20-21 | A dict prints as its fields in braces, separated by commas, with a colon between key and value |
| PrintedJson.KeysSorted | scripts/target_release_digests.py:20-21 | The keys of a canonical dict are sorted |
| PrintedJson.EscapedExactly | scripts/target_release_digests.py:20-21 | Every character of a string prints as itself, except that quotes, backslashes and control characters print as their escapes |
| PrintedJson.ScalarText | scripts/target_release_digests.py:20-21 | A number prints as its decimal numeral without leading zeros, after a minus sign if negative; the other scalars print as `null`, `true` and `false` |
| ReleaseDigests.ArtifactsById | scripts/target_release_digests.py:41-56 | Refuses exactly the lists with a non-object, a blank id or a repeated id |
| ReleaseDigests.StrictArtifactId | scripts/target_release_digests.py:59-76 | Finds the artifact whose body carries the digests, or the specified error |
| ReleaseDigests.ReadArtifactBodies | scripts/target_release_digests.py:88-119 | Reads the bodies in id order with the digest of each normalised body |
| ReleaseDigests.StampManifest | scripts/target_release_digests.py:122-141 | Overwrites both digests and every artifact digest in a copy of the manifest |
| ReleaseDigests.ArtifactBundlePayload | scripts/target_release_digests.py:144-156 | Builds the bundle payload from the bodies read |
| ReleaseDigests.Workspace.ComputeDigests | scripts/target_release_digests.py:159-170 | Computes both digests and changes no file |
| ReleaseDigests.Workspace.WriteRefreshedManifest | scripts/target_release_digests.py:173-199 | Rewrites the strict body and the manifest and no other file; a strict body that is no object raises before any write |
| ReleaseDigests.Workspace.RefreshDigests | scripts/target_release_digests.py:242-255 | One run of the script with `--write` |
| DigestAcceptance.ComputesExactly | scripts/target_release_digests.py:41-170 | The digests can be computed exactly for manifests whose artifacts are dicts with different non-blank ids, with a strict verifier log that can be told, and whose bodies can all be read as JSON |
| DigestAcceptance.RefreshesExactly | scripts/target_release_digests.py:173-255 | A run with `--write` succeeds exactly when moreover the manifest is read and the strict body is a dict |
| RefreshedManifest.RunKeepsManifest | scripts/target_release_digests.py:122-199 | After a run every field of the manifest other than `strictVerifier` and `artifacts` is as it was, in its old place; below `strictVerifier` only the two digest fields changed, and they hold the reported digests |
| RefreshedManifest.RunKeepsArtifacts | scripts/target_release_digests.py:122-199 | The artifacts keep their order, and in each only `sha256` is written: with the digest of its file before the run, or, for the strict one, of its body with the digests written |
| RefreshedManifest.RunKeepsFiles | scripts/target_release_digests.py:173-199 | A run touches no file but the manifest and the strict body; the strict body holds its old value with the two digests written, as canonical text |
| RefreshedManifest.StrictIdMeaning | scripts/target_release_digests.py:59-76 | The strict artifact is a strict verifier log: the one that a non-blank `evidenceRef` names, else the only one |
| DigestFixedPoint.RefreshIsFixedPoint | scripts/target_release_digests.py:79-199 | After a write that leaves the other artifacts' files alone, computing again yields the same two digests and writing again changes no byte |
| DigestFixedPoint.UnaliasedUndisturbed | scripts/target_release_digests.py:173-199 | A write leaves the other artifacts' files alone when no id names the manifest and no other id names the strict body's file |
| DigestFixedPoint.StoredDigestsAreTrue | scripts/target_release_digests.py:173-199 | After a write that leaves the other artifacts' files alone, every artifact's stored digest is the hash of its final body, the strict body rewritten in that step included, and manifest and strict body both carry the reported digests |
| DigestFixedPoint.RewrittenBody | scripts/target_release_digests.py:79-85 | Zeroing the digest fields of the strict body undoes the rewrite |
| DigestFixedPoint.StampSort | scripts/target_release_digests.py:92-96 | Artifacts sort alike before and after stamping |
| DigestMeaning.ComputeReadsInOrder | scripts/target_release_digests.py:88-119 | Every successful computation reads its bodies in strictly increasing id order with the right digests, so the next lemma applies to it |
| DigestMeaning.BundleDigestMeaning | scripts/target_release_digests.py:88-156 | If the hash tells the covered texts apart, bundle digests are equal exactly when the sets of (id, kind, provider if present, normalised body value) are equal, whatever the manifest order |
| DigestMeaning.TargetDigestMeaning | scripts/target_release_digests.py:122-170 | If the hash tells the covered texts apart, equal target digests force the same ids in the same order, the same strict artifact and equal raw bytes of every other body, wherever each side keeps its files |
| DigestCoverage.TargetDigestCovers | scripts/target_release_digests.py:122-170 | If the hash tells the covered texts apart, target digests are equal exactly when the manifests agree, as JSON values, in everything a run does not write, and every artifact but the strict one has a body with the same digest |
| DigestGuard.FixedPointIffUnaliased | scripts/target_release_digests.py:79-199 | If no artifact's id names the manifest and no other id names the strict body's file, writing is a fixed point; on files that do not already record what the run writes, and if the hash tells the covered texts apart, only then |
| DigestGuard.ManifestAlias | scripts/target_release_digests.py:173-199 | When another artifact's file is the manifest and the write leaves it alone, the manifest already recorded its own digest |
| DigestGuard.StrictAlias | scripts/target_release_digests.py:173-199 | When another artifact's file is the strict body's and the write leaves it alone, the strict body already carried the target digest |
| DigestGuard.SelfAlias | scripts/target_release_digests.py:79-199 | When the strict artifact's file is the manifest and writing is a fixed point, the manifest already carried the bundle digest below its strict verifier |
| AliasedDigests.SettlesUnlessAliased | scripts/target_release_digests.py:79-199 | For a concrete manifest with an artifact of any id, the run succeeds, and it is a fixed point exactly when that id does not name the manifest |
| FaithfulReading.FaithfulExists | scripts/target_release_digests.py:20-38 | The assumptions on reading and printing JSON can be met together |
| Descriptors.Process.OpenAt | scripts/verify_release_contract.py:346-357 | Opening a name through a held descriptor yields what the name is bound to there at that moment and never follows a symbolic link |
| Descriptors.Process.OpenFdNofollowDir | scripts/verify_release_contract.py:346-357 | Returns a directory bound to the name in the held directory, or leaves the descriptor table as it was, except that it leaks the descriptor exactly when the `fstat` of what it opened is refused |
| Descriptors.Process.Descend | scripts/verify_release_contract.py:397-403 | One round of the loop opens the child through the parent before letting the parent go; when it fails, parent and root are closed, nothing else is left open and nothing is closed twice, exactly when no refusal did harm |
| Descriptors.MissedThenReleased | scripts/verify_release_contract.py:408-411 | When a component was missed and the `finally` block has run, nothing stays open and nothing was closed twice exactly when no refusal did harm |
| Descriptors.Process.OpenReportDirectory | scripts/verify_release_contract.py:379-413 | For every world and every point of failure, refused `fstat` and `close` included: success leaves exactly the returned descriptor more, on a directory reached component by component from the root, each bound in the one before when opened, during the call; failure leaves none open and nothing is closed twice, exactly when no refusal did harm, and so whenever no call is refused meanwhile; when nobody interferes, it succeeds exactly if the components lead to a directory, and returns that one |
| Descriptors.RefusalBreaksLedger | scripts/verify_release_contract.py:346-413 | In a world that refuses one `fstat`, and in one that refuses one `close`, the walk fails and breaks the ledger |
| ReportDirectory.LexicalComponents | scripts/verify_release_contract.py:333-343 | Accepts exactly absolute paths without `.` or `..` components and yields the components below the root |
| ReportDirectory.CheckDirectory | scripts/verify_release_contract.py:425-446 | Passes only if, during the call, the held directory listed exactly the expected names and after that each was a regular file when looked at; everything happens in that directory; when nobody interferes, it passes exactly if the directory holds exactly the expected regular files |
| ReportDirectory.OpenAndCheck | scripts/verify_release_contract.py:416-450 | During the call first the walk, then the listing, then the looks; on success one descriptor more is open, on failure none exactly when no refusal harmed the walk; nothing outside the one final directory is listed or looked at; when nobody interferes, acceptance is decided by what the directory holds |
| ReportDirectory.ReadReport | scripts/verify_release_contract.py:254-276 | During the call, in this order, a report is opened in the held directory, seen there again under its name, read and verified through its descriptor; the descriptor is closed in every case; when nobody interferes, the outcome is decided by the file under the name |
| SurfaceCollection.AcceptedExactly | scripts/verify_release_contract.py:625-640 | The loop and the completeness check accept exactly when every report is accepted and reports are in bijection with the required surfaces; the list is then in required order |
| SurfaceCollection.SourcedPermute | scripts/verify_release_contract.py:254-276 | Two runs over the same report arguments in different orders, at whatever times, through a directory left alone, make the same judgements, up to their order |
| SurfaceCollection.OrderOfArgumentsIrrelevant | scripts/verify_release_contract.py:623-640 | When nobody interferes, permuting the report arguments changes neither acceptance nor the list |
| ReportMeaning.ReportExactly | scripts/verify_release_contract.py:277-330 | A report is accepted for a surface exactly when the typed verifier passed it for that surface, it carries the trusted identity, it is about the surface, and its drift, evidence and outcome are clean |
| ReportMeaning.TrustedExactly | scripts/verify_release_contract.py:147-165 | The identity is trusted exactly when it has the required fields and its commit and digests are hexadecimal of the right length |
| SurfaceCollection.CollectReports | scripts/verify_release_contract.py:623-640 | Whatever the other actor does, the directory descriptor is closed; between the clock's values before and after the call came first the walk without following a link, then the listing and the looks, then each report in turn, all in one directory; when nobody interferes, acceptance and list are those of `CalmReports` |
| ReleaseAggregate.ListedReportsTrusted | scripts/verify_release_contract.py:277-330 | Every report that the aggregate lists, and every report given, carries the trusted identity, stands for the required surface at its place with that surface's own source, consumer and version, and reports no drift and no errors |
| ReleaseAggregate.ValidateAggregate | scripts/verify_release_contract.py:611-663 | The whole of `validate_aggregate` up to writing: leaves no descriptor open exactly when no refusal harmed the walk, returns the specified publication, and an accepted one lists, in required order, trusted reports read during the call through one directory; when nobody interferes, acceptance and value are those of `CalmAggregate` |
| ReleaseAggregate.RunsPublishAlike | scripts/verify_release_contract.py:628-663 | Two runs that collected the same report arguments in different orders, through one directory left alone, publish the same value, whatever happens elsewhere |
| ReleaseAggregate.ArgumentOrderIrrelevant | scripts/verify_release_contract.py:611-663 | When nobody interferes, the order of the report arguments shows neither in acceptance nor in what is published |
| ReleaseAggregate.RunInBothOrders | scripts/verify_release_contract.py:611-663 | Calling the whole of `validate_aggregate` twice, with the arguments in two orders, gives the same outcome |
| PublishedAggregate.PublishedIdentity | scripts/verify_release_contract.py:574-663 | Where `reports` is not itself a sensitive key, every listed report shows after redaction, for commit, source tree and contract digest, exactly what the aggregate shows for itself, and that is the trusted value where it is no secret, no address and no path with another public form |
| PublishedAggregate.AggregateHolds | scripts/verify_release_contract.py:642-655 | The aggregate holds exactly its five fields: schema version, the trusted identity, the reports, the producer status and a passing outcome |
| PublishedAggregate.PublishedNote | scripts/verify_release_contract.py:656-663 | The published `redactedValueCount` is the number of positions at which something was replaced |
| PublishedAggregate.PublishedElsewhere | scripts/verify_release_contract.py:656-663 | At every position outside the note, the published value holds the redaction of what the aggregate held there |
| Redaction.RedactValue | scripts/verify_release_contract.py:577-606 | The recursive redactor with its local accumulators computes the specified value and count, or raises |
| Redaction.RedactAt | scripts/verify_release_contract.py:577-606 | Redaction commutes with looking inside: at every exposed position the result holds the redaction of what was there, and there are no other positions |
| Redaction.Published | scripts/verify_release_contract.py:577-606 | Outside sensitive keys the shape is untouched, scalars stay, a secret shows as `[REDACTED]`, any other network address as `[REDACTED_URL]`, and any other string in its public form if the policy gives it one; a sensitive key holds the placeholder |
| Redaction.UnchangedIsPublic | scripts/verify_release_contract.py:595-606 | Outside sensitive keys a string is published unchanged exactly when it is no secret, no network address and no path with a public form, placeholders apart |
| Redaction.ExposedExactly | scripts/verify_release_contract.py:577-590 | A position survives redaction exactly when no key on the way to it is sensitive |
| Redaction.RejectedExactlyOnClaims | scripts/verify_release_contract.py:596-597 | It raises exactly when a claim-inflating string lies outside every sensitive subtree |
| Redaction.CountIsExact | scripts/verify_release_contract.py:578-606 | The reported number is the number of outermost sensitive positions plus replaced strings |
| Redaction.PublishedIsFixed | scripts/verify_release_contract.py:574-608 | Redacting a published value changes nothing exactly when the classifiers leave every replacement in it alone |
| Redaction.PublishedNotFixed | scripts/verify_release_contract.py:559-571 | A file below a directory named `~` in the repository is published as a path that is itself redacted |
| Redaction.PathExactly | scripts/verify_release_contract.py:558-571 | A path in the repository is published relative to it, any other absolute path and any path that leads elsewhere as `[REDACTED_PATH]`, and any other string has no public form |
| PathNames.NormalizeTwice | scripts/openapi_surface_fingerprint.py:122-137 | Normalising is idempotent |
| PathNames.NormalizedShape | scripts/openapi_surface_fingerprint.py:122-137 | A normalised path starts with a slash, has no double slash, and ends with a slash only if it is the root |
| PathTemplates.TemplateNormalized | scripts/openapi_surface_fingerprint.py:122-137 | A path template is normalised exactly if it starts with a slash, has no double slash and only named parameters; the result is the template with the names stripped and a slash at the end dropped |
| PathTemplates.BracesExactly | scripts/openapi_surface_fingerprint.py:135-136 | Stray braces are tolerated exactly if as many are opened as closed, or none is opened but for parameters named `x` |
| OperationUnits.IterOperations | scripts/openapi_surface_fingerprint.py:140-180 | Yields the operations of every path item after following its `$ref` and applying the id overrides, or refuses |
| OperationRows.ProjectSuccessResponses | scripts/openapi_surface_fingerprint.py:254-314 | Projects the success responses in the specified order |
| OperationRows.ProjectBrowserEvents | scripts/openapi_surface_fingerprint.py:317-385 | Projects at most one browser event row; the choice of the single stream schema is forced |
| OperationRows.ProjectOperation | scripts/openapi_surface_fingerprint.py:456-526 | Projects one operation to its disposition, sample, contract row and event |
| OperationSurface.ProjectOpenapi | scripts/openapi_surface_fingerprint.py:431-551 | The loop with its sets of seen keys and ids yields the specified manifest, or refuses exactly where specified |
| RequestMeaning.SecurityExactly | scripts/openapi_surface_fingerprint.py:183-202 | An operation is `cookie+csrf`, with `csrf` true, exactly when some alternative names `cookieAuth` and some names `csrfHeader`; public exactly when no alternative is given; otherwise bearer if one names `bearerAuth`, else cookie if one names `cookieAuth` |
| RequestMeaning.NestedExactly | scripts/openapi_surface_fingerprint.py:106-119 | Nested references are valid exactly when every reference anywhere in the value resolves |
| RequestMeaning.IdentityExactly | scripts/openapi_surface_fingerprint.py:205-216 | No schema has the identity `none`; a non-empty schema is identified by its reference, or, written in place, by its digest, exactly when every reference in it resolves |
| RequestMeaning.RequestExactly | scripts/openapi_surface_fingerprint.py:219-251 | A request is projected exactly when its body, after references, offers at most one media type, and that one a dict with an identifiable schema, and then to that media type, lower-cased, or to none |
| ResponseMeaning.ResponsesExactly | scripts/openapi_surface_fingerprint.py:254-314 | The success responses are projected exactly when the success statuses are given and each of their responses can be read, and then to exactly the rows of their content entries |
| OperationMeaning.EventsExactly | scripts/openapi_surface_fingerprint.py:317-385 | Two websocket messages give a websocket event, and otherwise event streams of one schema give an event of that schema; neither gives none, and one message alone, messages beside streams, and streams of two schemas are refused |
| OperationMeaning.QueryExactly | scripts/openapi_surface_fingerprint.py:399-428 | The sample query gives exactly the query parameters that are required or named `from` or `to`, each with the value for its schema, the last one winning |
| OperationMeaning.OperationExactly | scripts/openapi_surface_fingerprint.py:456-526 | An operation is projected exactly when its id, capability, security, request, responses and events can be read from its JSON, and then to the row, disposition, sample and event that they describe |
| UnitMeaning.UnitsExactly | scripts/openapi_surface_fingerprint.py:140-180 | The operations read are exactly those that stand under a path and a method of the document, after references and id overrides |
| DocumentMeaning.ManifestExactly | scripts/openapi_surface_fingerprint.py:431-551 | A projected manifest lists, sorted, exactly the rows of the operations that stand in the document, for the capabilities that stand in the contract |
| DocumentMeaning.ProjectsExactly | scripts/openapi_surface_fingerprint.py:431-551 | The projection succeeds exactly when the contract gives its capabilities, every operation has such rows, and their ids and places are consistent |
| OperationCanon.UnitCanon | scripts/openapi_surface_fingerprint.py:183-551 | Sorting the keys of an operation and of the document it refers to gives the same rows, up to key order inside tags |
| OperationCanon.NestedCanon | scripts/openapi_surface_fingerprint.py:106-119 | Key order never changes whether all nested references resolve |
| OperationCanon.ResponsesCanon | scripts/openapi_surface_fingerprint.py:254-314 | Key order of responses, content and schemas never changes the projected responses |
| OperationOrder.UnitsPermute | scripts/openapi_surface_fingerprint.py:140-180 | Documents that differ in key order yield the same operations, up to key order and position |
| OperationOrder.GatherPermutation | scripts/openapi_surface_fingerprint.py:145-178 | Collecting over a permuted list succeeds alike and yields a permutation |
| OperationOrder.ProjectionIgnoresKeyOrder | scripts/openapi_surface_fingerprint.py:431-551 | Reordering keys anywhere in the document never changes whether the projection succeeds; on success the manifests are equal values with identical digests |
| OperationOrder.CanonicalDigestIsKeyBlind | scripts/openapi_surface_fingerprint.py:61-66 | The canonical digest does not see key order, as the previous lemma requires |
| ManifestValidation.ValidateManifest | scripts/openapi_surface_fingerprint.py:561-618 | Passes exactly the manifests that meet all checks, and names a repeated response exactly when ids and keys are right and a response is repeated |
| ManifestValidation.AssembledPasses | scripts/openapi_surface_fingerprint.py:528-618 | An assembled manifest meets every check except, possibly, the one on repeated responses |
| ManifestRules.PassesExactly | scripts/openapi_surface_fingerprint.py:561-618 | A manifest passes exactly when ids and places of its rows are different and match each other, no response is repeated, and both digests are those of the rows |
| ManifestDigests.DigestsIdentifyRows | scripts/openapi_surface_fingerprint.py:528-551 | If the hash tells the digested texts apart, equal digests mean the same rows in the same order, and conversely |
| ResponseClashes.RepeatedResponseIsClash | scripts/openapi_surface_fingerprint.py:254-314 | A success response is listed twice exactly when some success status has two media types equal after lower-casing with the same schema identity |
| ResponseClashes.ProjectionPassesUnlessClash | scripts/openapi_surface_fingerprint.py:431-618 | A successful projection passes the validator's own checks exactly when no operation with disposition `included` has such a status |
| ClashingDocument.ProjectsAndIsRefused | scripts/openapi_surface_fingerprint.py:431-618 | A whole document whose only response lists `A/b` and `a/b` projects successfully, and the manifest is refused |
| Flattening.FlattenedDict | scripts/openapi_surface_fingerprint.py:621-635 | A dict with plain keys flattens to exactly its leaves under the names of their positions |
| Flattening.NameInjective | scripts/openapi_surface_fingerprint.py:621-635 | Names of positions are unambiguous |
| Flattening.FlatAgreement | scripts/openapi_surface_fingerprint.py:621-651 | Flattened dicts answer every lookup alike exactly when they hold the same leaf, or none or null, everywhere |
| RowFlattening.OperationRowsTold | scripts/openapi_surface_fingerprint.py:621-651 | Flattening tells operation rows apart |
| RowFlattening.BrowserEventRowsTold | scripts/openapi_surface_fingerprint.py:679-693 | Flattening tells browser event rows apart |
| RowFlattening.OperationsComparedAsPython | scripts/openapi_surface_fingerprint.py:646-651 | On operation rows Python's comparison of two entries, for which `True` is 1, tells apart the same entries as equality of JSON values |
| RowFlattening.BrowserEventsComparedAsPython | scripts/openapi_surface_fingerprint.py:679-693 | The same on browser event rows |
| ProjectionDiff.ProjectionDifferences | scripts/openapi_surface_fingerprint.py:638-694 | The loops over sorted keys report exactly the specified differences in order |
| ProjectionDiff.NoDifferences | scripts/openapi_surface_fingerprint.py:638-694 | Manifests with distinct keys show no difference exactly when operations, dispositions and browser events agree as sets |
| ProjectionDiff.ValidatedNoDifferences | scripts/openapi_surface_fingerprint.py:638-694 | Two manifests that pass the validator's checks show no difference exactly when operations, dispositions and browser events agree as sets |
| ProjectionDiff.ReportedField | scripts/openapi_surface_fingerprint.py:646-651 | A field of an operation is reported exactly when the rows hold different leaves at that position |
| ProjectionDiff.DifferencesExchanged | scripts/openapi_surface_fingerprint.py:638-694 | Exchanging the manifests exchanges "missing" with "extra", keeps every "incompatible", and keeps the order within each kind |
| DifferenceMeaning.DifferencesExactly | scripts/openapi_surface_fingerprint.py:638-694 | Exactly these differences are reported: a row that only one manifest has, and a field of a row in both at which they hold different leaves |
| ProtobufChecks.CheckOutputs | scripts/verify_protobuf_contract.py:180-192 | One row's outputs pass exactly when each is right and none was seen before, in this row or an earlier one |
| ProtobufChecks.CheckGenerations | scripts/verify_protobuf_contract.py:207-240 | The generations pass exactly when each is right and their names differ; their outputs are collected in order |
| ProtobufChecks.CheckPartition | scripts/verify_protobuf_contract.py:241-242 | Comparing sorted lists and sizes decides that the generations list the declared outputs, each once |
| ProtobufCover.CheckRows | scripts/verify_protobuf_contract.py:146-242 | The loop over the dispositions passes exactly when every row is right by itself and no source or output is repeated, and counts correctly |
| ProtobufCover.ValidateManifest | scripts/verify_protobuf_contract.py:135-264 | Accepts exactly the acceptable manifests and reports the right counts; the two mismatch errors arise exactly when everything before them is right |
| ProtobufCover.AcceptanceIsExactCover | scripts/verify_protobuf_contract.py:135-264 | Acceptance makes dispositions a bijection with the tracked sources, all counts agree, and exactly the tracked outputs are produced by generations of managed dispositions |
| ProtobufCover.AcceptedOutputHasOnePlace | scripts/verify_protobuf_contract.py:180-242 | No output is produced at two places |
| ProtobufRules.Validate | scripts/verify_protobuf_contract.py:56-64 | The same with the validator's own rules for paths, headers, plugins and options |
| ProtobufMeaning.SafeExactly | scripts/verify_protobuf_contract.py:56-64 | A path is safe exactly when it is made of plain parts joined by slashes and has no backslash |
| ProtobufMeaning.HeaderSourceExactly | scripts/verify_protobuf_contract.py:123-132 | The source a header must name is what follows the include root and a slash, or the whole path below the root `.` |
| ProtobufMeaning.HeaderExactly | scripts/verify_protobuf_contract.py:193-206 | A generated file's header is right exactly when it names the compiler version, its source, and the plugin with its version that the file's ending asks for |
| ProtobufMeaning.RowExactly | scripts/verify_protobuf_contract.py:146-242 | A disposition is right by itself exactly when its keys, paths, consumers, reason, outputs, mode and generations are right, each spelled out |
| ProtobufMeaning.CoverExactly | scripts/verify_protobuf_contract.py:135-264 | Of an accepted manifest: the sources of its dispositions are the tracked ones, and the tracked outputs are exactly those at some position of a generation of a managed disposition |
| ProtobufMeaning.ListedOnce | scripts/verify_protobuf_contract.py:180-242 | No tracked output stands at two positions |
| ProtobufMeaning.CountsExactly | scripts/verify_protobuf_contract.py:251-264 | Of an accepted manifest some but not all dispositions are managed, and the reported counts are the numbers of positions of managed dispositions and of generations |
| MarkdownTables.FindSection | scripts/verify-phase-31-1-audit.py:117-128 | Finds the unique section under a heading whenever there is exactly one |
| MarkdownTables.ParseSectionTable | scripts/verify-phase-31-1-audit.py:142-171 | Finds the section's table whenever there is one, and never anything else |
| MarkdownTables.TableUnique | scripts/verify-phase-31-1-audit.py:142-171 | A document has at most one such table |
| LineMeaning.TableExactly | scripts/verify-phase-31-1-audit.py:117-171 | The table of a document, said on the lines themselves: it stands between a `##` heading and the next, starts with its header and a rule of dashes, and its rows are the barred lines after it |
| LineMeaning.RowExactly | scripts/verify-phase-31-1-audit.py:131-135 | A line is a row exactly if, stripped, it stands between bars; its cells are the stripped parts between the bars |
| LineMeaning.SeparatorExactly | scripts/verify-phase-31-1-audit.py:138-139 | A separator cell is three or more dashes with an optional colon at either side |
| MarkdownTables.StripLeavesNoTableLine | scripts/verify-phase-31-1-audit.py:331-334 | Cutting the table out keeps every other line in order and leaves no table line in the section |
| MarkdownRendering.RowRoundTrip | scripts/verify-phase-31-1-audit.py:131-135 | A rendered row of trimmed cells free of `\|` and `&` is read back |
| MarkdownRendering.RenderedTable | scripts/verify-phase-31-1-audit.py:142-171 | Rows rendered under a unique heading are the document's table, and the returned bounds cut out exactly its lines |
| MarkdownRendering.ParseTable | scripts/verify-phase-31-1-audit.py:142-171 | Whatever the document's table is, the parser returns it |
| ValidationAudit.DeriveTasks | scripts/verify-phase-31-1-audit.py:233-255 | Accepts the plans exactly when each block has distinct evidence and the three totals are right |
| ValidationAudit.DerivedCounts | scripts/verify-phase-31-1-audit.py:206-255 | Expected ids never repeat, and the number of pairs is the sum of the evidence counts |
| ValidationAudit.TaskIdInjective | scripts/verify-phase-31-1-audit.py:229-229 | Ids name plan and ordinal unambiguously |
| ValidationAudit.VerifyValidation | scripts/verify-phase-31-1-audit.py:341-410 | Accepts exactly the documents whose table, outside text and counts are right |
| ValidationAudit.AcceptanceMeans | scripts/verify-phase-31-1-audit.py:349-410 | Acceptance means exactly one row per expected id with exactly its evidence, pair count equal to the sum of evidence counts, and no expected id as a token outside the table |
| AuditMeaning.TableExactly | scripts/verify-phase-31-1-audit.py:341-410 | A table is accepted exactly when its rows state the tasks one by one, in all columns, no task is mentioned outside, and the front matter shows the counts |
| AuditMeaning.TasksExactly | scripts/verify-phase-31-1-audit.py:206-255 | The expected tasks are the blocks of the plans, numbered from one within each plan |
| AuditMeaning.TaskIdExactly | scripts/verify-phase-31-1-audit.py:229-229 | An id is `31.1-`, the plan, a dash and the ordinal, both in at least two digits |
| AuditMeaning.MentionsExactly | scripts/verify-phase-31-1-audit.py:337-338 | A token is mentioned exactly if it stands alone in some line, with no letter, digit, dot, dash or underscore beside it |
| ReleaseProjection.ProjectReleaseContract | scripts/verify_frontend_surface.py:399-451 | Accepts exactly the valid contracts and yields the specified payload |
| ReleaseProjection.GenerateReleaseProjection | scripts/openapi_surface_fingerprint.py:783-815 | The generator's loops yield its specified payload |
| ReleaseProjection.ProjectionsAgree | scripts/openapi_surface_fingerprint.py:783-815 | On every contract the frontend verifier accepts, the generator builds the identical payload, so the digests match |
| ReleaseProjection.DispositionIsStrongest | scripts/verify_frontend_surface.py:436-437 | In the payload of every accepted contract each surface's disposition is the strongest commitment among its listed capabilities, and excluded if it has none |
| ReleaseProjection.DispositionIsMonotone | scripts/verify_frontend_surface.py:436-437 | Between accepted contracts, raising commitments or naming more capabilities never lowers a surface's disposition in the payload |
| PayloadMeaning.AcceptedExactly | scripts/verify_frontend_surface.py:399-435 | The frontend verifier accepts exactly the contracts of the right version and profile with different capability ids and known commitments, and different surface ids that list known capabilities, each once |
| PayloadMeaning.PayloadExactly | scripts/verify_frontend_surface.py:399-451 | A surface is committed exactly when a capability it lists has `commitment` `committed` in the contract, conditional exactly when none has and one has `conditional`, else excluded; a capability shows its own commitment, navigation and reason |
| PayloadMeaning.RaisingLowersNothing | scripts/verify_frontend_surface.py:436-437 | Raising commitments in the contract, or listing more capabilities, lowers no surface |
| GeneratorMeaning.GeneratedExactly | scripts/openapi_surface_fingerprint.py:783-815 | From any contract with lists the generator builds the payload of the last row of each capability id and of every surface row, with the contract's commitments |
| ReleaseProjection.ProjectionIgnoresOrder | scripts/verify_frontend_surface.py:399-451 | Reordering capabilities or surfaces changes neither acceptance nor payload |
| MediaTypes.MediaBase | scripts/verify_frontend_surface.py:115-131 | The loop computes the parse |
| MediaTypes.ParsedIsCanonical | scripts/verify_frontend_surface.py:115-131 | Whatever is accepted is lower-cased, stripped, unquoted and without repeated names |
| MediaTypes.PrintThenParse | scripts/verify_frontend_surface.py:115-131 | Every canonical media type is read back from its printed form with quoted parameters |
| MediaTypes.RoundTrip | scripts/verify_frontend_surface.py:115-136 | For every accepted text, printing and parsing again gives the same base and parameters (section 8.3.1 of RFC 9110), and whether it is a JSON media type does not change |
| MediaMeaning.ParseExactly | scripts/verify_frontend_surface.py:115-131 | A text is read as a media type exactly if it is parts joined by semicolons: a base with a slash, and named parameters, quoted or not, none twice |
| MediaMeaning.JsonExactly | scripts/verify_frontend_surface.py:134-136 | A JSON media type has the base `application/json` or one that ends in `+json` |
| Sorting.SortPermutation | scripts/openapi_surface_fingerprint.py:528-531 | Sorting forgets the order of its argument when no two elements tie |
| Sorting.SortMapped | scripts/verify_frontend_surface.py:421-451 | Sorting by a key and projecting commute |

## Left out

- Reading YAML and JSON, JSON Schema validation, subprocesses, argument parsing, atomic writes and temporary files: inputs and verdicts are parameters; the typed report verifier is part of the `World`.
- UTF-8 encoding, floating point numbers, non-string keys of YAML mappings and Unicode case folding: text is a sequence of characters, numbers are integers, keys are strings, `lower()` and white space are ASCII.
- SHA-256 itself: an arbitrary function; the digest theorems assume it tells apart only the texts they name.
- The regular expressions and URL rules of the string classifiers in redaction: a `Policy` of arbitrary functions.
- Descriptors.Process.OpenReportDirectory: does not model the platform probe before the walk nor the test hooks; a refused `close` is taken to release its descriptor, as Linux does.
- ReleaseAggregate.ValidateAggregate: the identity and producer-status files are read by parameters; the checks inside the producer status are not modelled.
- The existence check of the artifact directory in the digest script, and its printed result.
- ReleaseDigests.ReadArtifactBodies: bytes that are no UTF-8 are not modelled apart from texts that are no JSON.
- ReleaseDigests.Workspace.RefreshDigests: does not model the printed result payload.
- OperationUnits.IterOperations: all its refusals are one; the error codes are not modelled.
- OperationRows.ProjectSuccessResponses: all its refusals are one; the error codes are not modelled.
- OperationRows.ProjectBrowserEvents: all its refusals are one; the error codes are not modelled.
- OperationRows.ProjectOperation: all its refusals are one, and sample path templates are a parameter.
- OperationSurface.ProjectOpenapi: does not say which error is raised when several apply, because the generator interleaves reading and projecting; it says exactly when there is one.
- OperationSurface.ProjectOpenapi: takes path normalisation, sample paths, lower-casing, the test for 2xx statuses and the digest as parameters; `PathNames.Normalize` is the normalisation, sample path templates are not modelled.
- OperationOrder.ProjectionIgnoresKeyOrder: key order inside tags may show in the sample rows; it does not show once keys are sorted, as the manifest is printed.
- ProjectionDiff.NoDifferences: rows have the shape the projection produces; rows of other shapes are excluded by the manifest's schema.
- ProtobufCover.ValidateManifest: which error a wrong row is refused with is modelled branch by branch, but only the refusal is characterised; starts after the manifest's own key, digest and tool checks; the tracked inventories are parameters.
- ReleaseProjection.GenerateReleaseProjection: on contracts whose surface ids are not all strings, whose capability ids are not lists of strings, or which refer to capabilities without a usable commitment, the generator may raise or yield something else; the model gives no result there.
- MarkdownTables.ParseSectionTable: documents are sequences of lines, character references are resolved by a parameter, and all refusals are one.
- ValidationAudit.DeriveTasks: the evidence ids of each task block are given; extracting them from the plans, and the threat ids, are not modelled.
- ValidationAudit.VerifyValidation: the front matter's fixed entries, the id patterns and the search for superseded ids are parameters; tokens are searched line by line, which is the same as in the joined text because ids hold no line breaks.
- The security half of the audit, the tool and regeneration checks of the protobuf script, the transport and exposure checks of the frontend script, the evidence collectors and the fixed lookup tables of the OpenAPI contract: long lists of lookups whose properties can be read off one branch.
