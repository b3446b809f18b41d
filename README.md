# sisyphus core in Dafny

This project models the decision and bookkeeping core of sisyphus, a software
supply-chain control plane. Components of an SDLC project are checked against
attestations (signed JSON claims about an artifact) under versioned policies.
The model covers these pieces:

- **Policy verifier** (`PolicyVerifier`). It decides whether one attestation
  satisfies one policy. The checks run in a fixed order: the issuer is trusted,
  the attestation is not older than the maximum age, a `vulnerabilities` object
  is present, the critical count is within its limit, and the sum of high and
  medium counts is within its limit. The current time is a parameter `now`.
  Timestamps are integers in nanoseconds.
- **Policies** (`Policies`). This covers `Policy::new`, `Policy::validate`,
  `PolicyRules::validate`, `is_issuer_allowed` and `max_age`.
- **Semantic versions** (`Semver`). A `MAJOR.MINOR.PATCH` parser and printer,
  with the ordering that the repository uses to pick the latest version.
- **Policy repository** (`PolicyRepository`). A class with a mutable map from
  purl to the list of versioned policies. It supports add, get (a given version
  or the latest), list and delete. `Valid()` holds the invariant that no purl
  maps to an empty list and that each stored version is the parse of the
  policy's version string.
- **Attestation storage** (`AttestationStorage`). A class with a mutable map
  from id to attestation, supporting store, get, delete and list.
- **Control plane** (`ControlPlane`). A class holding the project map, with
  `add_project` and `verify_project`. For each component, `verify_project` finds
  the first listed attestation whose first subject names the component's name
  and version, and runs the verifier on it. The result is false on the first
  failure or the first component with no match. `verify_project` is proved
  against the reference function `ProjectVerdict`. The attestation listing is
  an input because its order comes from a hash map and is unspecified. The
  verifier is a function parameter; the scenarios instantiate it with the
  modelled policy verifier.
- **SCAI summary types** (`SummaryScai`). The attribute enumeration with its
  string conversions, and the builders of the summary records.
- **Lifecycle events** (`Events`). `CDEvent::new` and `with_metadata`.
- **Support modules.** `Json` models the part of `serde_json::Value` that the
  core reads. `Numeric` models the u32 truncation and wrapping addition.
  `Wrappers` provides `Option`/`Result`.

The files are `wrappers.dfy`, `numeric.dfy`, `json.dfy`, `semver.dfy`,
`attestation.dfy`, `policy.dfy`, `policy_verifier.dfy`,
`policy_repository.dfy`, `attestation_storage.dfy`, `controlplane.dfy`,
`summary_scai.dfy` and `events.dfy`.

## Model

| member | source | states |
|---|---|---|
| Wrappers.Result.MapError | src/models/summary_scai.rs:580-582 | `map_err`: a success is kept as it is, and an error is passed through the given function |
| Numeric.TruncateU32 | src/verification/policy_verifier.rs:33-43 | `as u32` keeps any value below 2^32 unchanged; otherwise the result differs from the input by a multiple of 2^32 |
| Numeric.WrappingAddU32 | src/verification/policy_verifier.rs:49 | the u32 sum equals the true sum when that is below 2^32, and the true sum minus 2^32 otherwise |
| Json.Get | src/verification/policy_verifier.rs:29 | `get` finds a member exactly when the value is an object holding that key, and returns that member |
| Json.Index | src/controlplane/controlplane.rs:53-57 | `value[key]` is the member `get` finds, or `Null` when there is none |
| Json.AsObject | src/verification/policy_verifier.rs:30 | `as_object` succeeds exactly on objects and returns their members |
| Json.AsArray | src/controlplane/controlplane.rs:53 | `as_array` succeeds exactly on arrays and returns their elements |
| Json.AsStr | src/controlplane/controlplane.rs:56-57 | `as_str` succeeds exactly on strings and returns their text |
| Json.AsU64 | src/verification/policy_verifier.rs:34 | `as_u64` succeeds exactly on integers in [0, 2^64) and returns the integer |
| Semver.LessOrEqualIsTotalOrder | src/storage/policy_repository.rs:69 | version comparison is reflexive, antisymmetric, transitive and total, and `Less` is its strict part |
| Semver.DigitChar | src/storage/policy_repository.rs:38 | each digit value below 10 has a digit character that reads back as that value |
| Semver.NatToString | src/storage/policy_repository.rs:38 | printing a number gives a numeric identifier: digits only, with no leading zero unless it is "0" |
| Semver.NatToStringValue | src/storage/policy_repository.rs:38 | the printed digits of `n` read back as `n` |
| Semver.LeadingNonZeroIsPositive | src/storage/policy_repository.rs:38 | digits that start with a non-zero digit denote a positive number |
| Semver.NumericIdentifierRoundTrip | src/storage/policy_repository.rs:38 | a numeric identifier is the printed form of its own value |
| Semver.ParseNumber | src/storage/policy_repository.rs:38 | a version component parses only when it is a numeric identifier, and then to its value |
| Semver.Split | src/storage/policy_repository.rs:38 | splitting on '.' gives at least one part, and no part contains a '.' |
| Semver.JoinSplit | src/storage/policy_repository.rs:38 | joining the parts with '.' gives back the original string |
| Semver.SplitWithoutDot | src/storage/policy_repository.rs:38 | a dot-free prefix becomes one part on its own, and a dot-free string is a single part |
| Semver.DigitsHaveNoDot | src/storage/policy_repository.rs:38 | a digit string contains no '.' |
| Semver.Parse | src/storage/policy_repository.rs:38 | a string that parses is exactly the decimal text of the three version numbers joined by dots, so only canonical `MAJOR.MINOR.PATCH` text is accepted |
| Semver.CanonicalText | src/storage/policy_repository.rs:38 | three numeric identifiers joined by dots are the decimal text of their values |
| Semver.Format | src/storage/policy_repository.rs:38 | parsing the printed text of a version gives the version back |
| Semver.FormatParse | src/storage/policy_repository.rs:38 | a string that parses is exactly the printed form of its version |
| Semver.ParseInjective | src/storage/policy_repository.rs:59-62 | two strings that parse to the same version are the same string |
| Policies.NewPolicy | src/models/policy.rs:22-31 | fails exactly when the version string does not parse, without looking at the rules; on success it stores purl, version and rules unchanged |
| Policies.ValidateRules | src/models/policy.rs:61-71 | fails on an empty issuer set first, then on a zero maximum age, and is `Ok` exactly when neither holds |
| Policies.Validate | src/models/policy.rs:33-43 | rejects an empty purl before anything else, then an unparseable version, then bad rules; `Ok` exactly when all three pass |
| Policies.IsIssuerAllowed | src/models/policy.rs:73-75 | true exactly when the issuer is in the allowed set |
| Policies.MaxAge | src/models/policy.rs:77-79 | the maximum age is non-negative, is zero exactly when `max_age_days` is zero, and is `max_age_days` whole days |
| Policies.NewPolicyThenValidate | src/models/policy.rs:22-43 | a policy `new` accepts validates exactly when its purl is non-empty and its rules validate |
| Policies.OneZeroZeroParses | src/models/policy.rs:95-99 | "1.0.0" parses to version 1.0.0 |
| Policies.PolicyCreationScenario | src/models/policy.rs:86-139 | the creation and rule-validation tests: the sample policy constructs and validates; the empty-issuer, zero-age rules fail with the issuer error, yet `new` accepts them |
| Policies.InvalidVersionScenario | src/models/policy.rs:104-120 | `new` rejects the version "invalid_version" |
| PolicyVerifier.Vulnerabilities | src/verification/policy_verifier.rs:29-31 | the vulnerabilities object is found exactly when the content is an object with a `vulnerabilities` member that is itself an object, and the result is that member's fields |
| PolicyVerifier.Count | src/verification/policy_verifier.rs:33-43 | a missing count, or one that is not an unsigned 64-bit integer, counts as 0; otherwise the count is the integer |
| PolicyVerifier.VerifyAttestation | src/verification/policy_verifier.rs:16-54 | corrected verifier: `Ok(true)` exactly when the attestation is compliant; `Err` exactly when the issuer is trusted and the attestation is fresh but has no vulnerabilities object; an untrusted issuer or a stale attestation gives `Ok(false)` |
| PolicyVerifier.ThresholdVerdict | src/verification/policy_verifier.rs:45-53 | once the first three checks pass, the verdict is `Ok(critical <= limit && high + medium <= limit)`, with equality passing |
| PolicyVerifier.CompliantIsMonotonic | src/verification/policy_verifier.rs:16-54 | a compliant attestation stays compliant under looser rules and at an earlier time |
| PolicyVerifier.CountU32 | src/verification/policy_verifier.rs:33-43 | the truncated count equals the full count whenever the full count fits in 32 bits, and always differs from it by a multiple of 2^32 |
| PolicyVerifier.VerifyAttestationAsWritten | src/verification/policy_verifier.rs:16-54 | the verifier as written, with `as u32` truncation and wrapping u32 addition: `Ok(true)` exactly when compliant under those semantics, with the same error and early-false cases as the corrected verifier |
| PolicyVerifier.AsWrittenAgreesOnSmallCounts | src/verification/policy_verifier.rs:33-51 | when the counts are below 2^32 and high + medium does not overflow, the as-written and corrected verifiers agree |
| PolicyVerifier.TruncationAndWrapAdmitViolations | src/verification/policy_verifier.rs:33-51 | counterexamples: with limits of 0, a critical count of 2^32, or high 2^32-1 with medium 1, is accepted as written and rejected by the corrected verifier |
| PolicyVerifier.VerifierTestScenario | src/verification/policy_verifier.rs:63-108 | the verifier test: the trusted, fresh attestation passes, and the untrusted, stale one fails |
| PolicyRepository.WithoutVersionRemovesExactly | src/storage/policy_repository.rs:89-92 | `retain` removes exactly the entries of the given version, and the length is unchanged exactly when there were none |
| PolicyRepository.WithoutVersionKeepsWellFormed | src/storage/policy_repository.rs:90 | retaining keeps a well-formed list well formed |
| PolicyRepository.FindFirstWithVersion | src/storage/policy_repository.rs:60-64 | `find` gives nothing exactly when no entry has the version, and otherwise the first entry that has it |
| PolicyRepository.FindLastMaximum | src/storage/policy_repository.rs:67-71 | `max_by` gives an entry whose version is at least every other, and which is later than every other entry of that version |
| PolicyRepository.InMemoryPolicyRepository.constructor | src/storage/policy_repository.rs:28-32 | a new repository is empty and valid |
| PolicyRepository.InMemoryPolicyRepository.AddPolicy | src/storage/policy_repository.rs:37-51 | an unparseable version fails with the map unchanged; otherwise the entry is appended at the end of the purl's list, creating the list if absent, with other purls unchanged; the invariant is kept |
| PolicyRepository.InMemoryPolicyRepository.GetPolicy | src/storage/policy_repository.rs:53-74 | unknown purl fails; with a version, the first entry of the parsed version, or an error when none exists or the version does not parse; without one, the last entry of greatest version; under the invariant, the result has the requested purl and version string |
| PolicyRepository.InMemoryPolicyRepository.ListPolicies | src/storage/policy_repository.rs:76-82 | the purl's policies in insertion order, or the empty list for an unknown purl |
| PolicyRepository.InMemoryPolicyRepository.DeletePolicy | src/storage/policy_repository.rs:84-104 | an unparseable version or unknown purl fails with the map unchanged; when no entry has the version it fails unchanged; otherwise every entry of that version goes, and a purl left empty is removed; the invariant is kept |
| AttestationStorage.InMemoryAttestationStorage.constructor | src/storage/attestation_storage.rs:21-25 | a new storage is empty |
| AttestationStorage.InMemoryAttestationStorage.StoreAttestation | src/storage/attestation_storage.rs:30-34 | always succeeds, and stores the attestation under its id, replacing any previous one |
| AttestationStorage.InMemoryAttestationStorage.GetAttestation | src/storage/attestation_storage.rs:36-42 | succeeds exactly when the id is stored and returns that attestation, whose id is the requested one; otherwise fails with `NotFound` |
| AttestationStorage.InMemoryAttestationStorage.DeleteAttestation | src/storage/attestation_storage.rs:44-48 | succeeds exactly when the id is stored and removes only that id; otherwise fails with `NotFound` and the map is unchanged |
| AttestationStorage.InMemoryAttestationStorage.ListAttestations | src/storage/attestation_storage.rs:50-53 | returns exactly the stored attestations, one per stored id |
| AttestationStorage.StorageScenario | src/storage/attestation_storage.rs:60-98 | the storage test: the first attestation is got back, the listing has two entries, deleting it succeeds, and afterwards getting it, or getting or deleting an unknown id, fails with `NotFound` |
| ControlPlane.MatchesComponent | src/controlplane/controlplane.rs:52-67 | an attestation matches exactly when its content's `subject` is a non-empty array whose first element has string `name` and `version` equal to the component's |
| ControlPlane.FirstMatch | src/controlplane/controlplane.rs:52 | `find` returns nothing exactly when no attestation matches, and otherwise a matching attestation of the listing |
| ControlPlane.FindFirstMatch | src/controlplane/controlplane.rs:52-67 | the `find` scan returns the first attestation of the listing that matches the component, or nothing when none does |
| ControlPlane.FirstMatchIsUnique | src/controlplane/controlplane.rs:52 | at most one position of a listing is a match with no match before it |
| ControlPlane.ComponentVerdict | src/controlplane/controlplane.rs:52-80 | a component with no matching attestation gives `Ok(false)`, and its only errors come from the verifier |
| ControlPlane.ComponentVerdictTrue | src/controlplane/controlplane.rs:52-80 | a component passes exactly when the first matching attestation passes the component's policy |
| ControlPlane.ProjectVerdict | src/controlplane/controlplane.rs:47-84 | with components, a failed listing gives that storage error; with a successful listing, every error comes from the verifier |
| ControlPlane.ProjectVerdictTrue | src/controlplane/controlplane.rs:47-84 | the project verifies exactly when the listing succeeds and every component's verdict is `Ok(true)`; no components means true |
| ControlPlane.ProjectVerdictFalse | src/controlplane/controlplane.rs:69-80 | the project is `Ok(false)` exactly when some component's verdict is `Ok(false)` and all earlier ones are `Ok(true)` |
| ControlPlane.NoMatchMeansNotVerified | src/controlplane/controlplane.rs:77-80 | a component with no matching attestation prevents success, and gives `Ok(false)` when it is the first failing component |
| ControlPlane.ControlPlane.constructor | src/controlplane/controlplane.rs:31-38 | a new control plane has no projects |
| ControlPlane.ControlPlane.AddProject | src/controlplane/controlplane.rs:40-42 | stores the project under its name, replacing any project with that name |
| ControlPlane.ControlPlane.VerifyProject | src/controlplane/controlplane.rs:44-85 | an unknown project fails; otherwise the loop's result equals the reference verdict over the project's components; it changes nothing |
| ControlPlaneScenarios.ScenarioVerdicts | src/controlplane/controlplane.rs:149-335 | the verifier's verdicts on the test attestations: frontend, backend and the valid strict attestation pass; the invalid backend and the stale strict attestation fail |
| ControlPlaneScenarios.ScenarioMatches | src/controlplane/controlplane.rs:52-67 | an attestation built with a subject of a component's name and version matches that component |
| ControlPlaneScenarios.TwoByTwoVerdict | src/controlplane/controlplane.rs:47-84 | for two components and a two-element listing, the matches and the project verdict unfold as the loop does |
| ControlPlaneScenarios.AcmeAppXScenario | src/controlplane/controlplane.rs:88-237 | the ACMEAppX test: valid in either listing order, and invalid in either listing order once the failing backend attestation replaces the passing one |
| ControlPlaneScenarios.StrictProjectScenario | src/controlplane/controlplane.rs:239-348 | the strict-project test: invalid with the stale attestation, valid with the compliant one |
| SummaryScai.FromStr | src/models/summary_scai.rs:450-480 | every rejected string fails with "invalid value" |
| SummaryScai.ToString | src/models/summary_scai.rs:439-449 | every attribute name is `PASSED_` followed by the stage |
| SummaryScai.FromStrToString | src/models/summary_scai.rs:439-462 | parsing the name of an attribute gives the attribute back |
| SummaryScai.ToStringFromStr | src/models/summary_scai.rs:450-462 | a string that parses is the name of its attribute, so only the five `PASSED_*` names are accepted |
| SummaryScai.ToStringInjective | src/models/summary_scai.rs:439-449 | distinct attributes have distinct names |
| SummaryScai.Supplied | src/models/summary_scai.rs:580-582 | a setter stores a success exactly when the conversion succeeded, with the converted value |
| SummaryScai.DigestBuilder.SetSha256 | src/models/summary_scai.rs:527-536 | sets the `sha256` field to the outcome of the conversion |
| SummaryScai.BuildDigest | src/models/summary_scai.rs:538-549 | succeeds exactly when `sha256` is set, with that value; otherwise fails with the field's message |
| SummaryScai.DefaultDigestBuilder | src/models/summary_scai.rs:519-525 | the required `sha256` field starts unset |
| SummaryScai.DigestToBuilder | src/models/summary_scai.rs:550-556 | building the builder of a digest gives the digest back |
| SummaryScai.SummaryBuilder.SetPredicate | src/models/summary_scai.rs:575-584 | sets `predicate` to the outcome of the conversion and changes no other field |
| SummaryScai.SummaryBuilder.SetPredicateType | src/models/summary_scai.rs:585-594 | sets `predicate_type` and changes no other field |
| SummaryScai.SummaryBuilder.SetSubject | src/models/summary_scai.rs:595-604 | sets `subject` and changes no other field |
| SummaryScai.SummaryBuilder.SetStatementType | src/models/summary_scai.rs:605-614 | sets `type_` and changes no other field |
| SummaryScai.BuildSummary | src/models/summary_scai.rs:616-626 | succeeds exactly when all four fields are set, giving the record of their values; otherwise fails with the first unset field in declaration order |
| SummaryScai.DefaultSummaryBuilder | src/models/summary_scai.rs:564-573 | all four required fields start unset |
| SummaryScai.SummaryToBuilder | src/models/summary_scai.rs:627-636 | building the builder of a summary gives the summary back |
| SummaryScai.PredicateBuilder.SetAttributes | src/models/summary_scai.rs:651-660 | sets `attributes` and leaves `producer` unchanged |
| SummaryScai.PredicateBuilder.SetProducer | src/models/summary_scai.rs:661-670 | sets `producer` and leaves `attributes` unchanged |
| SummaryScai.BuildPredicate | src/models/summary_scai.rs:672-680 | succeeds exactly when both fields are set; otherwise fails with the first unset one |
| SummaryScai.DefaultPredicateBuilder | src/models/summary_scai.rs:642-649 | both required fields start unset |
| SummaryScai.PredicateToBuilder | src/models/summary_scai.rs:681-688 | building the builder of a predicate gives the predicate back |
| SummaryScai.AttributesItemBuilder.SetAttribute | src/models/summary_scai.rs:705-714 | sets `attribute` and changes no other field |
| SummaryScai.AttributesItemBuilder.SetConditions | src/models/summary_scai.rs:715-724 | sets `conditions` and changes no other field |
| SummaryScai.AttributesItemBuilder.SetEvidence | src/models/summary_scai.rs:725-734 | sets `evidence` and changes no other field |
| SummaryScai.BuildAttributesItem | src/models/summary_scai.rs:736-749 | succeeds exactly when all three fields are set; otherwise fails with the first unset one in declaration order |
| SummaryScai.DefaultAttributesItemBuilder | src/models/summary_scai.rs:695-703 | `attribute` and `evidence` start unset, and the optional `conditions` starts as `Ok(None)` |
| SummaryScai.AttributesItemToBuilder | src/models/summary_scai.rs:750-758 | building the builder of an attributes item gives the item back |
| SummaryScai.ConditionsBuilder.SetPolicy | src/models/summary_scai.rs:771-780 | sets the `policy` field to the outcome of the conversion |
| SummaryScai.BuildConditions | src/models/summary_scai.rs:782-793 | succeeds exactly when `policy` is set, with that value |
| SummaryScai.DefaultConditionsBuilder | src/models/summary_scai.rs:763-769 | the optional `policy` starts as `Ok(None)`, so the default builder builds `Conditions(None)` |
| SummaryScai.ConditionsToBuilder | src/models/summary_scai.rs:794-802 | building the builder of a conditions record gives it back |
| SummaryScai.DefaultBuildersFail | src/models/summary_scai.rs:519-525 | each default builder fails on its first required field; the conditions builder, whose one field is optional, builds `Conditions(None)` |
| SummaryScai.SettersBuildRecord | src/models/summary_scai.rs:564-626 | setting every required field of a default builder builds the record of the set values, with optional conditions left `None` |
| SummaryScai.FailedConversionIsReported | src/models/summary_scai.rs:575-583 | a failed conversion in the `predicate` setter is what building reports, with the setter's prefix |
| SummaryScai.SetterLaws | src/models/summary_scai.rs:575-594 | a second setting of a field overrides the first, and setters of different fields commute |
| Events.NewEvent | src/models/events.rs:80-88 | the new event keeps the given kind and subject, takes the given id and time, and has null metadata |
| Events.WithMetadata | src/models/events.rs:90-93 | the metadata is replaced, and id, timestamp, kind and subject are unchanged |
| Events.WithMetadataLaws | src/models/events.rs:90-93 | only the last metadata counts, and re-setting an event's own metadata changes nothing |
| Events.NewEventDeterminedByInputs | src/models/events.rs:80-93 | any event with the given id, time, kind and subject is the new event with its metadata set |
| Events.AttestationCreatedScenario | src/models/events.rs:104-131 | an attestation-created event keeps the attestation id, URI and subject id |
| Events.BuildCompletedScenario | src/models/events.rs:133-159 | a build-completed event keeps its build id and status, and its metadata's `duration_seconds` is 120 |

## Left out

- Concurrency: the `RwLock` wrappers and `async` functions are not modelled. Each store is a sequential object.
- `SDLCRelease`, its typestate markers and the `VerificationError` display text in `src/lib.rs` are not part of this model. That code is dead or formatting only.
- The `CBPManager` event loop and its empty `handle_event` in `src/cbp/manager.rs` are not part of this model. It is an async consumer with no behaviour.
- Serialisation is not modelled. This covers serde encoding and decoding, the untagged choice among `ResourceDescriptor` variants, and the tagged `CDEventType` encoding.
- Semver pre-release and build-metadata suffixes are not accepted. The parser takes only `MAJOR.MINOR.PATCH`, and the ordering compares those three fields.
- `Utc::now()` and `Uuid::new_v4()` become the parameters `now` and `id`. Timestamps are integers in nanoseconds.
- Logging: the `println!` calls in `verify_project` are I/O only.
- The control-plane scenarios read the clock once for a whole `verify_project` run: the verifier is `(a, p) => VerifyAttestationAsWritten(a, p, now)` for one `now`. The source calls `Utc::now()` again for each component, so a run that crosses an age boundary between components is not modelled.
- Error messages are not kept as strings. The source returns `String` or boxed error messages; the model gives each distinct message its own constructor of an error datatype. The SCAI builder messages are kept as text.
- `PolicyVerifier.VerifyAttestationAsWritten`: the u32 addition is modelled with wrap-around, as in a release build. A debug build panics on that overflow instead.
- `ControlPlane.ControlPlane.VerifyProject`: takes one attestation listing, used for every component. The source lists the storage again for each component, but nothing changes the storage during the loop. It also takes the verifier as a function argument, since the source calls it through a trait object.
- The control-plane tests use the result of `store_attestation` as a URI. Storage returns `()`, so the model keys stored attestations by id.
- The three `TryFrom` conversions of the attribute enumeration (for `&str`, `&String` and `String`) all delegate to `from_str`. Dafny has one string type, so they are the single function `SummaryScai.FromStr`.
- The builders' `TryInto` conversions are not modelled. Each setter takes the outcome of the conversion, as a `Result` with a textual error.
- `PolicyRules::new` and the `builder()` entry points only build records. They are the datatype constructors and the `Default…Builder` functions.
- `AttestationStorage.InMemoryAttestationStorage.ListAttestations`: hash-map iteration order is unspecified, so the contract fixes the contents and not the order.

## Findings

| source | as written | input that shows it | evidently intended | confidence | as-written member | corrected member |
|---|---|---|---|---|---|---|
| src/verification/policy_verifier.rs:33-51 | each count is read as `u64` and cast with `as u32`, which truncates; `high + medium` is a u32 addition that wraps in a release build | `{"vulnerabilities": {"critical": 4294967296}}` under `max_critical_vulnerabilities = 0` truncates to 0 and passes; `high = 4294967295, medium = 1` under a high+medium limit of 0 wraps to 0 and passes | compare the full counts and their true sum against the limits, so both attestations are rejected | not executed | PolicyVerifier.TruncationAndWrapAdmitViolations | PolicyVerifier.VerifyAttestation |
