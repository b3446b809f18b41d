/** Policies and their rule sets: construction, validation and the issuer test. */
module Policies {
  import opened Wrappers
  import opened Numeric
  import Semver
  import opened Attestations

  /** The rule body of a policy. `PolicyRules::new` is this datatype's constructor. */
  datatype PolicyRules = PolicyRules(
    allowedIssuers: set<string>,
    maxAgeDays: U32,
    maxCriticalVulnerabilities: U32,
    maxHighMediumVulnerabilities: U32)

  /** A versioned rule set for one package identity (purl). */
  datatype Policy = Policy(purl: string, version: string, rules: PolicyRules)

  /** The error strings of the source, one constructor per message. */
  datatype PolicyError =
    | InvalidVersion(version: string)  // "Invalid version string: ..."
    | EmptyPurl                        // "PURL cannot be empty"
    | NoAllowedIssuers                 // "At least one allowed issuer must be specified"
    | ZeroMaxAge                       // "Max age must be greater than 0 days"

  /** `Policy::new`: checks only that the version string is a semantic version. */
  function NewPolicy(purl: string, version: string, rules: PolicyRules): (r: Result<Policy, PolicyError>)
    ensures r.Ok? <==> Semver.Parse(version).Some?
    ensures r.Ok? ==> r.value.purl == purl && r.value.version == version && r.value.rules == rules
    ensures r.Err? ==> r.error == InvalidVersion(version)
  {
    if Semver.Parse(version).None? then Err(InvalidVersion(version))
    else Ok(Policy(purl, version, rules))
  }

  /** `PolicyRules::validate`: at least one issuer, and a positive maximum age. */
  function ValidateRules(rules: PolicyRules): (r: Result<Unit, PolicyError>)
    ensures r.Ok? <==> rules.allowedIssuers != {} && rules.maxAgeDays > 0
    ensures rules.allowedIssuers == {} ==> r == Err(NoAllowedIssuers)
    ensures rules.allowedIssuers != {} && rules.maxAgeDays == 0 ==> r == Err(ZeroMaxAge)
  {
    if rules.allowedIssuers == {} then Err(NoAllowedIssuers)
    else if rules.maxAgeDays == 0 then Err(ZeroMaxAge)
    else Ok(Unit)
  }

  /** `Policy::validate`: the purl first, then the version, then the rules. */
  function Validate(p: Policy): (r: Result<Unit, PolicyError>)
    ensures r.Ok? <==> |p.purl| > 0 && Semver.Parse(p.version).Some? && ValidateRules(p.rules).Ok?
    ensures p.purl == "" ==> r == Err(EmptyPurl)
    ensures p.purl != "" && Semver.Parse(p.version).None? ==> r == Err(InvalidVersion(p.version))
    ensures p.purl != "" && Semver.Parse(p.version).Some? ==> r == ValidateRules(p.rules)
  {
    if p.purl == "" then Err(EmptyPurl)
    else if Semver.Parse(p.version).None? then Err(InvalidVersion(p.version))
    else ValidateRules(p.rules)
  }

  /** `PolicyRules::is_issuer_allowed`. */
  predicate IsIssuerAllowed(rules: PolicyRules, issuer: string)
    ensures IsIssuerAllowed(rules, issuer) <==> issuer in rules.allowedIssuers
  {
    issuer in rules.allowedIssuers
  }

  /** `PolicyRules::max_age`: the maximum age as a duration in nanoseconds. */
  function MaxAge(rules: PolicyRules): (d: int)
    ensures d >= 0
    ensures d == 0 <==> rules.maxAgeDays == 0
    ensures d % NANOS_PER_DAY == 0 && d / NANOS_PER_DAY == rules.maxAgeDays
  {
    rules.maxAgeDays * NANOS_PER_DAY
  }

  /**
   * A policy that `Policy::new` accepted still validates only when its purl is
   * non-empty and its rules validate: construction checks the version alone.
   */
  lemma NewPolicyThenValidate(purl: string, version: string, rules: PolicyRules)
    requires NewPolicy(purl, version, rules).Ok?
    ensures Validate(NewPolicy(purl, version, rules).value).Ok? <==> |purl| > 0 && ValidateRules(rules).Ok?
  {
  }

  /** The version text "1.0.0" used throughout the source's tests is a semantic version. */
  lemma OneZeroZeroParses()
    ensures Semver.Parse("1.0.0") == Some(Semver.Version(1, 0, 0))
  {
    assert Semver.Format(Semver.Version(1, 0, 0)) == "1.0.0";
  }

  /**
   * The policy-creation tests: the rules `{trusted_issuer}, 7, 0, 5` under version
   * "1.0.0" construct and validate; an empty issuer set with age 0 does not validate,
   * yet `Policy::new` still accepts it because it does not look at the rules.
   */
  lemma PolicyCreationScenario()
    ensures NewPolicy("pkg:policy/test", "1.0.0", PolicyRules({"trusted_issuer"}, 7, 0, 5)).Ok?
    ensures Validate(Policy("pkg:policy/test", "1.0.0", PolicyRules({"trusted_issuer"}, 7, 0, 5))).Ok?
    ensures ValidateRules(PolicyRules({}, 0, 0, 5)) == Err(NoAllowedIssuers)
    ensures NewPolicy("pkg:policy/test", "1.0.0", PolicyRules({}, 0, 0, 5)).Ok?
  {
    OneZeroZeroParses();
  }

  /** The invalid-version test: "invalid_version" has no dot, so it is not a semantic version and `Policy::new` fails. */
  lemma InvalidVersionScenario()
    ensures NewPolicy("pkg:policy/test", "invalid_version", PolicyRules({"trusted_issuer"}, 7, 0, 5))
            == Err(InvalidVersion("invalid_version"))
  {
    Semver.SplitWithoutDot("invalid_version", "");
    assert |Semver.Split("invalid_version")| == 1;
    assert Semver.Parse("invalid_version") == None;
  }
}
