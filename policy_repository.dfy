/**
 * `InMemoryPolicyRepository`: a map from purl to the list of policies stored under
 * it, each with its parsed version, updated in place.
 */
module PolicyRepository {
  import opened Wrappers
  import Semver
  import opened Policies

  /** A stored policy with the version its version string parsed to. */
  datatype VersionedPolicy = VersionedPolicy(policy: Policy, version: Semver.Version)

  /** The repository's error strings, one constructor per message. */
  datatype RepositoryError =
    | UnparseableVersion(version: string)  // the semver parse error
    | PolicyNotFound                   // "Policy not found"
    | VersionNotFound                  // "Specific version not found"
    | NoVersionsAvailable              // "No versions available"

  /** An entry stored under `purl`: its policy has that purl, and its version is the parse of its version string. */
  predicate WellFormedEntry(purl: string, vp: VersionedPolicy) {
    vp.policy.purl == purl && Semver.Parse(vp.policy.version) == Some(vp.version)
  }

  predicate WellFormedList(purl: string, list: seq<VersionedPolicy>) {
    forall i :: 0 <= i < |list| ==> WellFormedEntry(purl, list[i])
  }

  /** The list under `purl`, or the empty list that `or_insert_with(Vec::new)` would create. */
  function ListOf(m: map<string, seq<VersionedPolicy>>, purl: string): seq<VersionedPolicy> {
    if purl in m then m[purl] else []
  }

  /** `i` is the first entry of `list` with version `v` (what `iter().find` returns). */
  predicate IsFirstWithVersion(list: seq<VersionedPolicy>, v: Semver.Version, i: int) {
    && 0 <= i < |list|
    && list[i].version == v
    && forall j :: 0 <= j < i ==> list[j].version != v
  }

  /**
   * `i` is the entry `iter().max_by(cmp)` returns: a greatest version, and the last
   * among equal greatest versions.
   */
  predicate IsLastMaximum(list: seq<VersionedPolicy>, i: int) {
    && 0 <= i < |list|
    && (forall j :: 0 <= j < |list| ==> Semver.LessOrEqual(list[j].version, list[i].version))
    && (forall j :: i < j < |list| ==> Semver.Less(list[j].version, list[i].version))
  }

  /** What `retain(|p| p.version != v)` leaves: the other entries, in their order. */
  function WithoutVersion(list: seq<VersionedPolicy>, v: Semver.Version): seq<VersionedPolicy> {
    if list == [] then []
    else
      var last := list[|list| - 1];
      WithoutVersion(list[..|list| - 1], v) + (if last.version == v then [] else [last])
  }

  /**
   * Retaining removes exactly the entries with version `v`: what is left has no
   * such entry, keeps every other entry, adds nothing, and is shorter exactly when
   * something matched.
   */
  lemma {:induction false} WithoutVersionRemovesExactly(list: seq<VersionedPolicy>, v: Semver.Version)
    ensures |WithoutVersion(list, v)| <= |list|
    ensures |WithoutVersion(list, v)| == |list| <==> forall i :: 0 <= i < |list| ==> list[i].version != v
    ensures forall x :: x in WithoutVersion(list, v) <==> x in list && x.version != v
  {
    if list != [] {
      var init := list[..|list| - 1];
      WithoutVersionRemovesExactly(init, v);
      assert list == init + [list[|list| - 1]];
      if |WithoutVersion(list, v)| == |list| {
        forall i | 0 <= i < |list| ensures list[i].version != v {
          if i < |list| - 1 { assert list[i] == init[i]; }
        }
      }
    }
  }

  lemma {:induction false} WithoutVersionKeepsWellFormed(purl: string, list: seq<VersionedPolicy>, v: Semver.Version)
    requires WellFormedList(purl, list)
    ensures WellFormedList(purl, WithoutVersion(list, v))
  {
    WithoutVersionRemovesExactly(list, v);
    var w := WithoutVersion(list, v);
    forall i | 0 <= i < |w| ensures WellFormedEntry(purl, w[i]) {
      assert w[i] in w;
    }
  }

  /** `iter().find(|p| p.version == v)`: the index of the first entry with version `v`. */
  method FindFirstWithVersion(list: seq<VersionedPolicy>, v: Semver.Version) returns (r: Option<nat>)
    ensures r.None? <==> forall j :: 0 <= j < |list| ==> list[j].version != v
    ensures r.Some? ==> IsFirstWithVersion(list, v, r.value)
  {
    var i := 0;
    while i < |list|
      invariant 0 <= i <= |list|
      invariant forall j :: 0 <= j < i ==> list[j].version != v
    {
      if list[i].version == v {
        return Some(i);
      }
      i := i + 1;
    }
    r := None;
  }

  /**
   * `iter().max_by(cmp)`: the index of a greatest version; on ties the later
   * entry replaces the earlier one, so it is the last of the greatest.
   */
  method FindLastMaximum(list: seq<VersionedPolicy>) returns (best: nat)
    requires |list| > 0
    ensures IsLastMaximum(list, best)
  {
    best := 0;
    var i := 1;
    while i < |list|
      invariant 0 <= best < i <= |list|
      invariant forall j :: 0 <= j < i ==> Semver.LessOrEqual(list[j].version, list[best].version)
      invariant forall j :: best < j < i ==> Semver.Less(list[j].version, list[best].version)
    {
      if Semver.LessOrEqual(list[best].version, list[i].version) {
        best := i;
      }
      i := i + 1;
    }
  }

  class InMemoryPolicyRepository {
    var policies: map<string, seq<VersionedPolicy>>

    /** No purl maps to an empty list, and every entry is well formed for its purl. */
    predicate Valid()
      reads this
    {
      forall purl :: purl in policies ==> |policies[purl]| > 0 && WellFormedList(purl, policies[purl])
    }

    constructor ()
      ensures Valid() && policies == map[]
    {
      policies := map[];
    }

    /**
     * `add_policy`: an unparseable version is rejected with the map unchanged;
     * otherwise the policy is appended to its purl's list, which is created if
     * absent. Nothing is deduplicated and the rules are not validated.
     */
    method AddPolicy(policy: Policy) returns (r: Result<Unit, RepositoryError>)
      requires Valid()
      modifies this
      ensures Valid()
      ensures r.Err? <==> Semver.Parse(policy.version).None?
      ensures r.Err? ==> r.error == UnparseableVersion(policy.version) && policies == old(policies)
      ensures r.Ok? ==> policies == old(policies)[policy.purl :=
        ListOf(old(policies), policy.purl) + [VersionedPolicy(policy, Semver.Parse(policy.version).value)]]
    {
      var parsed := Semver.Parse(policy.version);
      if parsed.None? {
        return Err(UnparseableVersion(policy.version));
      }
      var entry := VersionedPolicy(policy, parsed.value);
      var list := if policy.purl in policies then policies[policy.purl] else [];
      policies := policies[policy.purl := list + [entry]];
      r := Ok(Unit);
    }

    /**
     * `get_policy`: an unknown purl fails; with a version, the first entry whose
     * version equals its parse; without one, the last entry of greatest version.
     */
    method GetPolicy(purl: string, version: Option<string>) returns (r: Result<Policy, RepositoryError>)
      ensures purl !in policies ==> r == Err(PolicyNotFound)
      ensures purl in policies && version.Some? && Semver.Parse(version.value).None? ==>
        r == Err(UnparseableVersion(version.value))
      ensures purl in policies && version.Some? && Semver.Parse(version.value).Some? ==>
        var list, v := policies[purl], Semver.Parse(version.value).value;
        && (r.Ok? <==> exists i :: 0 <= i < |list| && list[i].version == v)
        && (r.Ok? ==> exists i :: IsFirstWithVersion(list, v, i) && r.value == list[i].policy)
        && (r.Err? ==> r.error == VersionNotFound)
      ensures purl in policies && version.None? ==>
        var list := policies[purl];
        && (r.Err? <==> list == [])
        && (r.Ok? ==> exists i :: IsLastMaximum(list, i) && r.value == list[i].policy)
        && (r.Err? ==> r.error == NoVersionsAvailable)
      ensures Valid() && r.Ok? ==> r.value.purl == purl
      ensures Valid() && r.Ok? && version.Some? ==> r.value.version == version.value
    {
      if purl !in policies {
        return Err(PolicyNotFound);
      }
      var list := policies[purl];
      match version {
        case Some(text) =>
          var parsed := Semver.Parse(text);
          if parsed.None? {
            return Err(UnparseableVersion(text));
          }
          var found := FindFirstWithVersion(list, parsed.value);
          if found.None? {
            return Err(VersionNotFound);
          }
          var i := found.value;
          assert Valid() ==> list[i].policy.purl == purl && list[i].policy.version == text by {
            if Valid() {
              assert WellFormedEntry(purl, list[i]);
              Semver.ParseInjective(list[i].policy.version, text);
            }
          }
          r := Ok(list[i].policy);
        case None =>
          if list == [] {
            return Err(NoVersionsAvailable);
          }
          var best := FindLastMaximum(list);
          assert Valid() ==> WellFormedEntry(purl, list[best]);
          r := Ok(list[best].policy);
      }
    }

    /** `list_policies`: the purl's policies in insertion order, or none for an unknown purl. */
    method ListPolicies(purl: string) returns (r: Result<seq<Policy>, RepositoryError>)
      ensures r.Ok?
      ensures |r.value| == |ListOf(policies, purl)|
      ensures forall i :: 0 <= i < |r.value| ==> r.value[i] == ListOf(policies, purl)[i].policy
    {
      var list := if purl in policies then policies[purl] else [];
      var out: seq<Policy> := [];
      var i := 0;
      while i < |list|
        invariant 0 <= i <= |list|
        invariant |out| == i
        invariant forall j :: 0 <= j < i ==> out[j] == list[j].policy
      {
        out := out + [list[i].policy];
        i := i + 1;
      }
      r := Ok(out);
    }

    /**
     * `delete_policy`: the version is parsed first; then every entry of that version
     * is removed, and a list left empty takes its purl with it. An unknown purl or a
     * version with no entry fails and leaves the map unchanged.
     */
    method DeletePolicy(purl: string, version: string) returns (r: Result<Unit, RepositoryError>)
      requires Valid()
      modifies this
      ensures Valid()
      ensures Semver.Parse(version).None? ==> r == Err(UnparseableVersion(version)) && policies == old(policies)
      ensures Semver.Parse(version).Some? && purl !in old(policies) ==>
        r == Err(PolicyNotFound) && policies == old(policies)
      ensures Semver.Parse(version).Some? && purl in old(policies) ==>
        var list, v := old(policies)[purl], Semver.Parse(version).value;
        var kept := WithoutVersion(list, v);
        && (r.Err? <==> forall i :: 0 <= i < |list| ==> list[i].version != v)
        && (r.Err? ==> r.error == VersionNotFound && policies == old(policies))
        && (r.Ok? ==> policies == if kept == [] then old(policies) - {purl} else old(policies)[purl := kept])
    {
      var parsed := Semver.Parse(version);
      if parsed.None? {
        return Err(UnparseableVersion(version));
      }
      var v := parsed.value;
      if purl !in policies {
        return Err(PolicyNotFound);
      }
      var list := policies[purl];
      var kept: seq<VersionedPolicy> := [];
      var i := 0;
      while i < |list|
        invariant 0 <= i <= |list|
        invariant kept == WithoutVersion(list[..i], v)
      {
        assert list[..i + 1][..i] == list[..i];
        if list[i].version != v {
          kept := kept + [list[i]];
        }
        i := i + 1;
      }
      assert list[..|list|] == list;
      WithoutVersionRemovesExactly(list, v);
      if |kept| == |list| {
        return Err(VersionNotFound);
      }
      WithoutVersionKeepsWellFormed(purl, list, v);
      if kept == [] {
        policies := policies - {purl};
      } else {
        policies := policies[purl := kept];
      }
      r := Ok(Unit);
    }
  }
}
