/**
 * The control plane: SDLC projects by name, and the check that every component of
 * a project has a matching attestation that passes the component's policy.
 */
module ControlPlane {
  import opened Wrappers
  import Json
  import opened Attestations
  import opened Policies
  import opened PolicyVerifier
  import opened AttestationStorage

  datatype Component = Component(name: string, version: string, policy: Policy)

  datatype SDLCProject = SDLCProject(name: string, components: seq<Component>)

  /** The errors `verify_project` returns: its own, the storage's and the verifier's. */
  datatype ControlPlaneError =
    | ProjectNotFound        // "Project not found"
    | Storage(storageError: StorageError)
    | Verification(verifyError: VerifyError)

  /**
   * The policy verifier the control plane is generic over (`V: PolicyVerifier`). The
   * source plugs in `SimplePolicyVerifier`; its clock reading is captured by the
   * caller, as in `(a, p) => VerifyAttestationAsWritten(a, p, now)`.
   */
  type Verifier = (Attestation, Policy) -> Result<bool, VerifyError>

  /**
   * The closure passed to `find`: the attestation's first subject has string
   * fields `name` and `version` equal to the component's.
   */
  predicate MatchesComponent(a: Attestation, c: Component)
    ensures MatchesComponent(a, c) <==>
      && a.content.Object? && "subject" in a.content.members
      && a.content.members["subject"].Array?
      && |a.content.members["subject"].elems| > 0
      && var first := a.content.members["subject"].elems[0];
         && first.Object?
         && "name" in first.members && first.members["name"] == Json.Str(c.name)
         && "version" in first.members && first.members["version"] == Json.Str(c.version)
  {
    match Json.AsArray(Json.Index(a.content, "subject"))
    case Some(subjects) =>
      && |subjects| > 0
      && Json.AsStr(Json.Index(subjects[0], "name")) == Some(c.name)
      && Json.AsStr(Json.Index(subjects[0], "version")) == Some(c.version)
    case None => false
  }

  /** `attestations.iter().find(...)`: the first attestation that matches the component. */
  function FirstMatch(atts: seq<Attestation>, c: Component): (r: Option<Attestation>)
    ensures r.None? <==> forall i :: 0 <= i < |atts| ==> !MatchesComponent(atts[i], c)
    ensures r.Some? ==> exists i :: 0 <= i < |atts| && atts[i] == r.value && MatchesComponent(atts[i], c)
                                    && forall j :: 0 <= j < i ==> !MatchesComponent(atts[j], c)
  {
    if atts == [] then None
    else if MatchesComponent(atts[0], c) then Some(atts[0])
    else
      var r := FirstMatch(atts[1..], c);
      assert forall i :: 1 <= i < |atts| ==> atts[i] == atts[1..][i - 1];
      r
  }

  /** One component's outcome: false without a match, else the verifier's verdict on the first match. */
  function ComponentVerdict(c: Component, atts: seq<Attestation>, verify: Verifier): (r: Result<bool, ControlPlaneError>)
    ensures (forall i :: 0 <= i < |atts| ==> !MatchesComponent(atts[i], c)) ==> r == Ok(false)
    ensures r.Err? ==> r.error.Verification?
  {
    match FirstMatch(atts, c)
    case None => Ok(false)
    case Some(a) =>
      match verify(a, c.policy)
      case Ok(b) => Ok(b)
      case Err(e) => Err(Verification(e))
  }

  /** `i` is the position `find` stops at: a match with no match before it. */
  predicate IsFirstMatch(atts: seq<Attestation>, c: Component, i: int) {
    && 0 <= i < |atts|
    && MatchesComponent(atts[i], c)
    && forall j :: 0 <= j < i ==> !MatchesComponent(atts[j], c)
  }

  /** At most one position of a listing is the first to match a component. */
  lemma FirstMatchIsUnique(atts: seq<Attestation>, c: Component, i: int, k: int)
    requires IsFirstMatch(atts, c, i) && IsFirstMatch(atts, c, k)
    ensures i == k
  {
  }

  /**
   * A component passes exactly when the attestation `find` stops at passes the
   * component's policy.
   */
  lemma ComponentVerdictTrue(c: Component, atts: seq<Attestation>, verify: Verifier)
    ensures ComponentVerdict(c, atts, verify) == Ok(true) <==>
      exists i :: IsFirstMatch(atts, c, i) && verify(atts[i], c.policy) == Ok(true)
  {
    forall i, k | IsFirstMatch(atts, c, i) && IsFirstMatch(atts, c, k) ensures i == k {
      FirstMatchIsUnique(atts, c, i, k);
    }
  }

  /**
   * The outcome of verifying a list of components, in order, stopping at the first
   * component that does not pass; the listing is consulted only if there is a component.
   */
  function ProjectVerdict(cs: seq<Component>, listing: Result<seq<Attestation>, StorageError>, verify: Verifier)
    : (r: Result<bool, ControlPlaneError>)
    ensures cs != [] && listing.Err? ==> r == Err(Storage(listing.error))
    ensures r.Err? && listing.Ok? ==> r.error.Verification?
  {
    if cs == [] then Ok(true)
    else match listing
      case Err(e) => Err(Storage(e))
      case Ok(atts) =>
        var v := ComponentVerdict(cs[0], atts, verify);
        if v == Ok(true) then ProjectVerdict(cs[1..], listing, verify) else v
  }

  /** A project passes exactly when every component passes; a project without components passes. */
  lemma {:induction false} ProjectVerdictTrue(cs: seq<Component>, listing: Result<seq<Attestation>, StorageError>, verify: Verifier)
    ensures ProjectVerdict(cs, listing, verify) == Ok(true) <==>
      cs == [] || (listing.Ok? && forall i :: 0 <= i < |cs| ==> ComponentVerdict(cs[i], listing.value, verify) == Ok(true))
  {
    if cs != [] && listing.Ok? {
      var atts := listing.value;
      var v := ComponentVerdict(cs[0], atts, verify);
      if v == Ok(true) {
        assert ProjectVerdict(cs, listing, verify) == ProjectVerdict(cs[1..], listing, verify);
        ProjectVerdictTrue(cs[1..], listing, verify);
        if forall i :: 0 <= i < |cs[1..]| ==> ComponentVerdict(cs[1..][i], atts, verify) == Ok(true) {
          forall i | 0 <= i < |cs| ensures ComponentVerdict(cs[i], atts, verify) == Ok(true) {
            if i > 0 { assert cs[i] == cs[1..][i - 1]; }
          }
        }
      } else {
        assert ProjectVerdict(cs, listing, verify) == v;
      }
    }
  }

  /** Component `i` is the first that does not pass, and its verdict is `Ok(false)`. */
  predicate FailsAt(cs: seq<Component>, atts: seq<Attestation>, verify: Verifier, i: int) {
    && 0 <= i < |cs|
    && ComponentVerdict(cs[i], atts, verify) == Ok(false)
    && forall j :: 0 <= j < i ==> ComponentVerdict(cs[j], atts, verify) == Ok(true)
  }

  /** When the first component passes, the first failure is one place further on than in the rest. */
  lemma FailsAtShift(cs: seq<Component>, atts: seq<Attestation>, verify: Verifier, i: int)
    requires cs != [] && ComponentVerdict(cs[0], atts, verify) == Ok(true)
    ensures FailsAt(cs, atts, verify, i) <==> i > 0 && FailsAt(cs[1..], atts, verify, i - 1)
  {
    if 0 < i <= |cs| {
      if FailsAt(cs[1..], atts, verify, i - 1) {
        forall j | 0 <= j < i ensures ComponentVerdict(cs[j], atts, verify) == Ok(true) {
          if j > 0 { assert cs[j] == cs[1..][j - 1]; }
        }
      }
    }
  }

  /**
   * A project fails (`Ok(false)`) exactly when some component fails, having no
   * match or a false verdict, after every earlier component passed.
   */
  lemma {:induction false} ProjectVerdictFalse(cs: seq<Component>, listing: Result<seq<Attestation>, StorageError>, verify: Verifier)
    ensures ProjectVerdict(cs, listing, verify) == Ok(false) <==>
      listing.Ok? && exists i :: FailsAt(cs, listing.value, verify, i)
  {
    if cs != [] && listing.Ok? {
      var atts := listing.value;
      if ComponentVerdict(cs[0], atts, verify) == Ok(true) {
        ProjectVerdictFalse(cs[1..], listing, verify);
        if ProjectVerdict(cs, listing, verify) == Ok(false) {
          var k :| FailsAt(cs[1..], atts, verify, k);
          FailsAtShift(cs, atts, verify, k + 1);
        } else {
          forall i | FailsAt(cs, atts, verify, i) ensures false {
            FailsAtShift(cs, atts, verify, i);
          }
        }
      } else {
        if ComponentVerdict(cs[0], atts, verify) == Ok(false) {
          assert FailsAt(cs, atts, verify, 0);
        }
      }
    }
  }

  /**
   * A component without a matching attestation makes the project fail; if an
   * earlier component already stopped the loop, the project still does not pass.
   */
  lemma NoMatchMeansNotVerified(cs: seq<Component>, listing: Result<seq<Attestation>, StorageError>, verify: Verifier, k: int)
    requires 0 <= k < |cs| && listing.Ok? && FirstMatch(listing.value, cs[k]).None?
    ensures ProjectVerdict(cs, listing, verify) != Ok(true)
    ensures (forall j :: 0 <= j < k ==> ComponentVerdict(cs[j], listing.value, verify) == Ok(true)) ==>
      ProjectVerdict(cs, listing, verify) == Ok(false)
  {
    ProjectVerdictTrue(cs, listing, verify);
    ProjectVerdictFalse(cs, listing, verify);
    if forall j :: 0 <= j < k ==> ComponentVerdict(cs[j], listing.value, verify) == Ok(true) {
      assert FailsAt(cs, listing.value, verify, k);
    }
  }

  /** The `find` call of `verify_project`, as the loop it is: stop at the first attestation that matches. */
  method FindFirstMatch(atts: seq<Attestation>, component: Component) returns (found: Option<Attestation>)
    ensures found == FirstMatch(atts, component)
  {
    found := None;
    var i := 0;
    while i < |atts|
      invariant 0 <= i <= |atts|
      invariant FirstMatch(atts, component) == FirstMatch(atts[i..], component)
    {
      assert atts[i..][1..] == atts[i + 1..];
      if MatchesComponent(atts[i], component) {
        found := Some(atts[i]);
        return;
      }
      i := i + 1;
    }
  }

  class ControlPlane {
    var projects: map<string, SDLCProject>

    /** Every project is stored under its own name. */
    predicate Valid()
      reads this
    {
      forall name :: name in projects ==> projects[name].name == name
    }

    constructor ()
      ensures Valid() && projects == map[]
    {
      projects := map[];
    }

    /** `add_project`: store under the project's name, replacing any project of that name. */
    method AddProject(project: SDLCProject)
      requires Valid()
      modifies this
      ensures Valid()
      ensures projects == old(projects)[project.name := project]
    {
      projects := projects[project.name := project];
    }

    /**
     * `verify_project`: for each component in order, list the attestations, find
     * the first that matches, and stop with `Ok(false)` at a component without a
     * match or with a false verdict; errors from the listing or the verifier
     * propagate. `listing` is what `list_attestations` returns.
     */
    method VerifyProject(projectName: string, listing: Result<seq<Attestation>, StorageError>, verify: Verifier)
      returns (r: Result<bool, ControlPlaneError>)
      ensures projectName !in projects ==> r == Err(ProjectNotFound)
      ensures projectName in projects ==> r == ProjectVerdict(projects[projectName].components, listing, verify)
    {
      if projectName !in projects {
        return Err(ProjectNotFound);
      }
      var components := projects[projectName].components;
      var k := 0;
      while k < |components|
        invariant 0 <= k <= |components|
        invariant ProjectVerdict(components, listing, verify) == ProjectVerdict(components[k..], listing, verify)
      {
        assert components[k..][1..] == components[k + 1..];
        if listing.Err? {
          return Err(Storage(listing.error));
        }
        var atts := listing.value;
        var component := components[k];
        var found := FindFirstMatch(atts, component);
        match found {
          case Some(attestation) =>
            var verdict := verify(attestation, component.policy);
            if verdict.Err? {
              return Err(Verification(verdict.error));
            }
            if !verdict.value {
              return Ok(false);
            }
          case None =>
            return Ok(false);
        }
        k := k + 1;
      }
      r := Ok(true);
    }
  }
}

/** The two end-to-end scenarios of the control plane's tests. */
module ControlPlaneScenarios {
  import opened Wrappers
  import Json
  import opened Attestations
  import opened Policies
  import opened PolicyVerifier
  import opened ControlPlane

  function Subject(name: string, version: string): Json.Value {
    Json.Array([Json.Object(map["name" := Json.Str(name), "version" := Json.Str(version)])])
  }

  function Counts(critical: int, high: int, medium: int, low: int): Json.Value {
    Json.Object(map[
      "critical" := Json.Num(Json.Int(critical)),
      "high" := Json.Num(Json.Int(high)),
      "medium" := Json.Num(Json.Int(medium)),
      "low" := Json.Num(Json.Int(low))])
  }

  /** An attestation for component `name`@`version` with the given vulnerability counts. */
  function ComponentAttestation(id: string, name: string, version: string, timestamp: int,
                                critical: int, high: int, medium: int, low: int): Attestation {
    Attestation(id, "trusted_issuer", timestamp,
      Json.Object(map["subject" := Subject(name, version), "vulnerabilities" := Counts(critical, high, medium, low)]))
  }

  function Rules(maxAgeDays: nat, maxHighMedium: nat): PolicyRules
    requires maxAgeDays < 100 && maxHighMedium < 100
  {
    PolicyRules({"trusted_issuer"}, maxAgeDays, 0, maxHighMedium)
  }

  /** The attestation verdicts the scenarios rely on, each for the first matching attestation. */
  lemma ScenarioVerdicts(now: int)
    ensures VerifyAttestationAsWritten(ComponentAttestation("frontend-att", "frontend", "1.2.3", now, 0, 2, 2, 10),
              Policy("pkg:github/acme/frontend", "1.0.0", Rules(30, 5)), now) == Ok(true)
    ensures VerifyAttestationAsWritten(ComponentAttestation("backend-att", "backend", "2.3.4", now, 0, 1, 1, 5),
              Policy("pkg:github/acme/backend", "1.0.0", Rules(30, 3)), now) == Ok(true)
    ensures VerifyAttestationAsWritten(ComponentAttestation("invalid-backend-att", "backend", "2.3.4", now, 1, 3, 2, 5),
              Policy("pkg:github/acme/backend", "1.0.0", Rules(30, 3)), now) == Ok(false)
    ensures VerifyAttestationAsWritten(ComponentAttestation("violating-att", "strict-component", "1.0.0", now - 10 * NANOS_PER_DAY, 0, 2, 1, 5),
              Policy("pkg:github/acme/strict-component", "1.0.0", Rules(7, 2)), now) == Ok(false)
    ensures VerifyAttestationAsWritten(ComponentAttestation("valid-att", "strict-component", "1.0.0", now, 0, 1, 1, 5),
              Policy("pkg:github/acme/strict-component", "1.0.0", Rules(7, 2)), now) == Ok(true)
  {
    var vf := Vulnerabilities(ComponentAttestation("frontend-att", "frontend", "1.2.3", now, 0, 2, 2, 10)).value;
    assert Count(vf, "critical") == 0 && Count(vf, "high") == 2 && Count(vf, "medium") == 2;
    var vb := Vulnerabilities(ComponentAttestation("backend-att", "backend", "2.3.4", now, 0, 1, 1, 5)).value;
    assert Count(vb, "critical") == 0 && Count(vb, "high") == 1 && Count(vb, "medium") == 1;
    var vbad := Vulnerabilities(ComponentAttestation("invalid-backend-att", "backend", "2.3.4", now, 1, 3, 2, 5)).value;
    assert Count(vbad, "critical") == 1;
    var vg := Vulnerabilities(ComponentAttestation("valid-att", "strict-component", "1.0.0", now, 0, 1, 1, 5)).value;
    assert Count(vg, "critical") == 0 && Count(vg, "high") == 1 && Count(vg, "medium") == 1;
  }

  /** Which scenario attestation matches which scenario component. */
  lemma ScenarioMatches(id: string, name: string, version: string, t: int, c: int, h: int, m: int, l: int, comp: Component)
    ensures MatchesComponent(ComponentAttestation(id, name, version, t, c, h, m, l), comp)
            <==> name == comp.name && version == comp.version
  {
    var a := ComponentAttestation(id, name, version, t, c, h, m, l);
    assert a.content.members["subject"].elems[0] == Json.Object(map["name" := Json.Str(name), "version" := Json.Str(version)]);
  }

  /** A two-component project over a two-attestation listing, unfolded. */
  lemma TwoByTwoVerdict(c0: Component, c1: Component, x: Attestation, y: Attestation, verify: Verifier)
    ensures FirstMatch([x, y], c0) == if MatchesComponent(x, c0) then Some(x) else if MatchesComponent(y, c0) then Some(y) else None
    ensures FirstMatch([x, y], c1) == if MatchesComponent(x, c1) then Some(x) else if MatchesComponent(y, c1) then Some(y) else None
    ensures ProjectVerdict([c0, c1], Ok([x, y]), verify) ==
      if ComponentVerdict(c0, [x, y], verify) == Ok(true) then ComponentVerdict(c1, [x, y], verify)
      else ComponentVerdict(c0, [x, y], verify)
  {
    assert [x, y][1..] == [y];
    assert [y][1..] == [];
    assert [c0, c1][1..] == [c1];
    assert [c1][1..] == [];
    assert ProjectVerdict([c1], Ok([x, y]), verify) == ComponentVerdict(c1, [x, y], verify);
  }

  /**
   * ACMEAppX: frontend 1.2.3 and backend 2.3.4, each with a current attestation
   * within its policy, verify in either listing order; once the backend attestation
   * is replaced by one with a critical vulnerability, the project fails.
   */
  lemma AcmeAppXScenario(now: int)
    ensures
      var frontend := Component("frontend", "1.2.3", Policy("pkg:github/acme/frontend", "1.0.0", Rules(30, 5)));
      var backend := Component("backend", "2.3.4", Policy("pkg:github/acme/backend", "1.0.0", Rules(30, 3)));
      var cs := [frontend, backend];
      var f := ComponentAttestation("frontend-att", "frontend", "1.2.3", now, 0, 2, 2, 10);
      var b := ComponentAttestation("backend-att", "backend", "2.3.4", now, 0, 1, 1, 5);
      var bad := ComponentAttestation("invalid-backend-att", "backend", "2.3.4", now, 1, 3, 2, 5);
      var verify: Verifier := (a, p) => VerifyAttestationAsWritten(a, p, now);
      && ProjectVerdict(cs, Ok([f, b]), verify) == Ok(true)
      && ProjectVerdict(cs, Ok([b, f]), verify) == Ok(true)
      && ProjectVerdict(cs, Ok([f, bad]), verify) == Ok(false)
      && ProjectVerdict(cs, Ok([bad, f]), verify) == Ok(false)
  {
    var frontend := Component("frontend", "1.2.3", Policy("pkg:github/acme/frontend", "1.0.0", Rules(30, 5)));
    var backend := Component("backend", "2.3.4", Policy("pkg:github/acme/backend", "1.0.0", Rules(30, 3)));
    var cs := [frontend, backend];
    var f := ComponentAttestation("frontend-att", "frontend", "1.2.3", now, 0, 2, 2, 10);
    var b := ComponentAttestation("backend-att", "backend", "2.3.4", now, 0, 1, 1, 5);
    var bad := ComponentAttestation("invalid-backend-att", "backend", "2.3.4", now, 1, 3, 2, 5);
    var verify: Verifier := (a, p) => VerifyAttestationAsWritten(a, p, now);
    ScenarioVerdicts(now);
    ScenarioMatches("frontend-att", "frontend", "1.2.3", now, 0, 2, 2, 10, frontend);
    ScenarioMatches("frontend-att", "frontend", "1.2.3", now, 0, 2, 2, 10, backend);
    ScenarioMatches("backend-att", "backend", "2.3.4", now, 0, 1, 1, 5, frontend);
    ScenarioMatches("backend-att", "backend", "2.3.4", now, 0, 1, 1, 5, backend);
    ScenarioMatches("invalid-backend-att", "backend", "2.3.4", now, 1, 3, 2, 5, frontend);
    ScenarioMatches("invalid-backend-att", "backend", "2.3.4", now, 1, 3, 2, 5, backend);
    TwoByTwoVerdict(frontend, backend, f, b, verify);
    TwoByTwoVerdict(frontend, backend, b, f, verify);
    TwoByTwoVerdict(frontend, backend, f, bad, verify);
    TwoByTwoVerdict(frontend, backend, bad, f, verify);
  }

  /**
   * StrictProject: an attestation ten days old fails a 7-day policy; a current one
   * with 1 + 1 high/medium vulnerabilities passes its limit of 2.
   */
  lemma StrictProjectScenario(now: int)
    ensures
      var strict := Component("strict-component", "1.0.0", Policy("pkg:github/acme/strict-component", "1.0.0", Rules(7, 2)));
      var stale := ComponentAttestation("violating-att", "strict-component", "1.0.0", now - 10 * NANOS_PER_DAY, 0, 2, 1, 5);
      var good := ComponentAttestation("valid-att", "strict-component", "1.0.0", now, 0, 1, 1, 5);
      var verify: Verifier := (a, p) => VerifyAttestationAsWritten(a, p, now);
      && ProjectVerdict([strict], Ok([stale]), verify) == Ok(false)
      && ProjectVerdict([strict], Ok([good]), verify) == Ok(true)
  {
    var strict := Component("strict-component", "1.0.0", Policy("pkg:github/acme/strict-component", "1.0.0", Rules(7, 2)));
    var verify: Verifier := (a, p) => VerifyAttestationAsWritten(a, p, now);
    ScenarioVerdicts(now);
    ScenarioMatches("violating-att", "strict-component", "1.0.0", now - 10 * NANOS_PER_DAY, 0, 2, 1, 5, strict);
    ScenarioMatches("valid-att", "strict-component", "1.0.0", now, 0, 1, 1, 5, strict);
    assert [strict][1..] == [];
  }
}
