/**
 * `SimplePolicyVerifier::verify_attestation`: issuer, then age, then the
 * vulnerability counts, stopping at the first check that fails.
 *
 * Two definitions are given. `VerifyAttestationAsWritten` follows the source
 * exactly, including its `as u32` casts and its `u32` addition; `VerifyAttestation`
 * compares the counts without truncation or wrap-around, which is what the
 * thresholds evidently mean. The two agree whenever the counts fit in 32 bits
 * (`AsWrittenAgreesOnSmallCounts`).
 */
module PolicyVerifier {
  import opened Wrappers
  import opened Numeric
  import Json
  import opened Attestations
  import opened Policies

  /** "Missing or invalid vulnerabilities data": the verdict could not be reached. */
  datatype VerifyError = MissingVulnerabilities

  /** The age gate: an age equal to the limit still passes. */
  predicate IsFresh(a: Attestation, rules: PolicyRules, now: int) {
    now - a.timestamp <= MaxAge(rules)
  }

  /** `content.get("vulnerabilities").and_then(as_object)`. */
  function Vulnerabilities(a: Attestation): (r: Option<map<string, Json.Value>>)
    ensures r.Some? <==> a.content.Object? && "vulnerabilities" in a.content.members
                         && a.content.members["vulnerabilities"].Object?
    ensures r.Some? ==> r.value == a.content.members["vulnerabilities"].members
  {
    match Json.Get(a.content, "vulnerabilities")
    case Some(v) => Json.AsObject(v)
    case None => None
  }

  /** `get(key).and_then(as_u64).unwrap_or(0)`: a missing or non-integer count is 0. */
  function Count(vulns: map<string, Json.Value>, key: string): (n: U64)
    ensures key !in vulns ==> n == 0
    ensures key in vulns && Json.AsU64(vulns[key]).None? ==> n == 0
    ensures key in vulns && Json.AsU64(vulns[key]).Some? ==> n == vulns[key].n.i
  {
    match Json.Get(Json.Object(vulns), key)
    case Some(v) => (match Json.AsU64(v) case Some(n) => n case None => 0)
    case None => 0
  }

  // ---- the evidently intended verifier ----

  /** The reference definition: what it means for an attestation to satisfy a policy. */
  predicate Compliant(a: Attestation, p: Policy, now: int) {
    && a.issuer in p.rules.allowedIssuers
    && IsFresh(a, p.rules, now)
    && Vulnerabilities(a).Some?
    && Count(Vulnerabilities(a).value, "critical") <= p.rules.maxCriticalVulnerabilities
    && Count(Vulnerabilities(a).value, "high") + Count(Vulnerabilities(a).value, "medium")
       <= p.rules.maxHighMediumVulnerabilities
  }

  /** The verifier with the counts compared at full width. */
  function VerifyAttestation(a: Attestation, p: Policy, now: int): (r: Result<bool, VerifyError>)
    ensures r == Ok(true) <==> Compliant(a, p, now)
    ensures r.Err? <==> a.issuer in p.rules.allowedIssuers && IsFresh(a, p.rules, now) && Vulnerabilities(a).None?
    ensures a.issuer !in p.rules.allowedIssuers ==> r == Ok(false)
    ensures a.issuer in p.rules.allowedIssuers && !IsFresh(a, p.rules, now) ==> r == Ok(false)
  {
    if !IsIssuerAllowed(p.rules, a.issuer) then Ok(false)
    else if now - a.timestamp > MaxAge(p.rules) then Ok(false)
    else match Vulnerabilities(a)
      case None => Err(MissingVulnerabilities)
      case Some(vulns) =>
        var critical := Count(vulns, "critical");
        var high := Count(vulns, "high");
        var medium := Count(vulns, "medium");
        if critical > p.rules.maxCriticalVulnerabilities then Ok(false)
        else if high + medium > p.rules.maxHighMediumVulnerabilities then Ok(false)
        else Ok(true)
  }

  /**
   * For a trusted, fresh attestation that carries a vulnerabilities object, the
   * verdict is false exactly when one of the two thresholds is exceeded; a count
   * equal to its threshold passes.
   */
  lemma ThresholdVerdict(a: Attestation, p: Policy, now: int)
    requires a.issuer in p.rules.allowedIssuers && IsFresh(a, p.rules, now)
    requires Vulnerabilities(a).Some?
    ensures VerifyAttestation(a, p, now).Ok?
    ensures var v := Vulnerabilities(a).value;
            VerifyAttestation(a, p, now) == Ok(false) <==>
              || Count(v, "critical") > p.rules.maxCriticalVulnerabilities
              || Count(v, "high") + Count(v, "medium") > p.rules.maxHighMediumVulnerabilities
  {
  }

  /**
   * Loosening a policy (more issuers, a longer age limit, higher thresholds) or
   * asking earlier never turns a passing attestation into a failing one.
   */
  lemma CompliantIsMonotonic(a: Attestation, p: Policy, q: Policy, now: int, earlier: int)
    requires Compliant(a, p, now)
    requires p.rules.allowedIssuers <= q.rules.allowedIssuers
    requires p.rules.maxAgeDays <= q.rules.maxAgeDays
    requires p.rules.maxCriticalVulnerabilities <= q.rules.maxCriticalVulnerabilities
    requires p.rules.maxHighMediumVulnerabilities <= q.rules.maxHighMediumVulnerabilities
    requires earlier <= now
    ensures VerifyAttestation(a, q, earlier) == Ok(true)
  {
  }

  // ---- the verifier as written ----

  /** The count after `as u32`: the low 32 bits of the `u64` value. */
  function CountU32(vulns: map<string, Json.Value>, key: string): (n: U32)
    ensures Count(vulns, key) < U32_MODULUS ==> n == Count(vulns, key)
    ensures (Count(vulns, key) - n) % U32_MODULUS == 0
  {
    TruncateU32(Count(vulns, key))
  }

  /** What the source accepts: truncated counts and a wrapping `high + medium`. */
  predicate CompliantAsWritten(a: Attestation, p: Policy, now: int) {
    && a.issuer in p.rules.allowedIssuers
    && IsFresh(a, p.rules, now)
    && Vulnerabilities(a).Some?
    && CountU32(Vulnerabilities(a).value, "critical") <= p.rules.maxCriticalVulnerabilities
    && WrappingAddU32(CountU32(Vulnerabilities(a).value, "high"), CountU32(Vulnerabilities(a).value, "medium"))
       <= p.rules.maxHighMediumVulnerabilities
  }

  /**
   * The source's verifier. The sum `high_vulns + medium_vulns` is a `u32`
   * addition; this models a release build, where it wraps (a debug build panics).
   */
  function VerifyAttestationAsWritten(a: Attestation, p: Policy, now: int): (r: Result<bool, VerifyError>)
    ensures r == Ok(true) <==> CompliantAsWritten(a, p, now)
    ensures r.Err? <==> a.issuer in p.rules.allowedIssuers && IsFresh(a, p.rules, now) && Vulnerabilities(a).None?
    ensures a.issuer !in p.rules.allowedIssuers ==> r == Ok(false)
    ensures a.issuer in p.rules.allowedIssuers && !IsFresh(a, p.rules, now) ==> r == Ok(false)
  {
    if !IsIssuerAllowed(p.rules, a.issuer) then Ok(false)
    else if now - a.timestamp > MaxAge(p.rules) then Ok(false)
    else match Vulnerabilities(a)
      case None => Err(MissingVulnerabilities)
      case Some(vulns) =>
        var critical := CountU32(vulns, "critical");
        var high := CountU32(vulns, "high");
        var medium := CountU32(vulns, "medium");
        if critical > p.rules.maxCriticalVulnerabilities then Ok(false)
        else if WrappingAddU32(high, medium) > p.rules.maxHighMediumVulnerabilities then Ok(false)
        else Ok(true)
  }

  /** When every count fits in 32 bits and so does their sum, the two verifiers agree. */
  lemma AsWrittenAgreesOnSmallCounts(a: Attestation, p: Policy, now: int)
    requires Vulnerabilities(a).Some? ==>
      var v := Vulnerabilities(a).value;
      && Count(v, "critical") < U32_MODULUS
      && Count(v, "high") + Count(v, "medium") < U32_MODULUS
    ensures VerifyAttestationAsWritten(a, p, now) == VerifyAttestation(a, p, now)
  {
  }

  function VulnerabilityContent(critical: int, high: int, medium: int): Json.Value {
    Json.Object(map["vulnerabilities" := Json.Object(map[
      "critical" := Json.Num(Json.Int(critical)),
      "high" := Json.Num(Json.Int(high)),
      "medium" := Json.Num(Json.Int(medium)),
      "low" := Json.Num(Json.Int(10))])])
  }

  /**
   * The casts let a count of 2^32 critical vulnerabilities through a policy that
   * allows none, and the wrapping sum lets 2^32 - 1 high plus 1 medium through a
   * policy that allows none; the intended verifier rejects both.
   */
  lemma TruncationAndWrapAdmitViolations(now: int)
    ensures var p := Policy("pkg:policy/test", "1.0.0", PolicyRules({"trusted_issuer"}, 7, 0, 0));
            var big := Attestation("a", "trusted_issuer", now, VulnerabilityContent(U32_MODULUS, 0, 0));
            var wrap := Attestation("b", "trusted_issuer", now, VulnerabilityContent(0, U32_MODULUS - 1, 1));
            && VerifyAttestationAsWritten(big, p, now) == Ok(true)
            && VerifyAttestation(big, p, now) == Ok(false)
            && VerifyAttestationAsWritten(wrap, p, now) == Ok(true)
            && VerifyAttestation(wrap, p, now) == Ok(false)
  {
    var p := Policy("pkg:policy/test", "1.0.0", PolicyRules({"trusted_issuer"}, 7, 0, 0));
    var big := Attestation("a", "trusted_issuer", now, VulnerabilityContent(U32_MODULUS, 0, 0));
    var vb := Vulnerabilities(big).value;
    assert Count(vb, "critical") == U32_MODULUS;
    assert CountU32(vb, "critical") == 0;
    var wrap := Attestation("b", "trusted_issuer", now, VulnerabilityContent(0, U32_MODULUS - 1, 1));
    var vw := Vulnerabilities(wrap).value;
    assert CountU32(vw, "high") == U32_MODULUS - 1 && CountU32(vw, "medium") == 1;
    assert WrappingAddU32(U32_MODULUS - 1, 1) == 0;
  }

  /**
   * The source's unit test: a trusted, current attestation with 0 critical and
   * 2 + 2 high/medium passes the policy `{trusted_issuer}, 7 days, 0, 5`; an
   * untrusted one, ten days old, with 1 critical and 3 + 3, fails.
   */
  lemma VerifierTestScenario(now: int)
    ensures var p := Policy("pkg:policy/test", "1.0.0", PolicyRules({"trusted_issuer"}, 7, 0, 5));
            var valid := Attestation("test1", "trusted_issuer", now, VulnerabilityContent(0, 2, 2));
            var invalid := Attestation("test2", "untrusted_issuer", now - 10 * NANOS_PER_DAY, VulnerabilityContent(1, 3, 3));
            && VerifyAttestationAsWritten(valid, p, now) == Ok(true)
            && VerifyAttestationAsWritten(invalid, p, now) == Ok(false)
  {
    var valid := Attestation("test1", "trusted_issuer", now, VulnerabilityContent(0, 2, 2));
    var v := Vulnerabilities(valid).value;
    assert Count(v, "critical") == 0 && Count(v, "high") == 2 && Count(v, "medium") == 2;
  }
}
