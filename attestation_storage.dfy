/** `InMemoryAttestationStorage`: attestations keyed by their id, updated in place. */
module AttestationStorage {
  import opened Wrappers
  import opened Attestations

  /** `std::io::ErrorKind::NotFound`, "Attestation not found". */
  datatype StorageError = NotFound

  class InMemoryAttestationStorage {
    var attestations: map<string, Attestation>

    /** Every attestation is stored under its own id. */
    predicate Valid()
      reads this
    {
      forall id :: id in attestations ==> attestations[id].id == id
    }

    constructor ()
      ensures Valid() && attestations == map[]
    {
      attestations := map[];
    }

    /** `store_attestation`: insert under the attestation's id, replacing any earlier one; never fails. */
    method StoreAttestation(a: Attestation) returns (r: Result<Unit, StorageError>)
      requires Valid()
      modifies this
      ensures Valid()
      ensures r.Ok?
      ensures attestations == old(attestations)[a.id := a]
    {
      attestations := attestations[a.id := a];
      r := Ok(Unit);
    }

    /** `get_attestation`: the attestation stored under `id`, or `NotFound`; reads only. */
    method GetAttestation(id: string) returns (r: Result<Attestation, StorageError>)
      ensures r.Ok? <==> id in attestations
      ensures r.Err? ==> r.error == NotFound
      ensures r.Ok? ==> r.value == attestations[id]
      ensures Valid() && r.Ok? ==> r.value.id == id
    {
      if id in attestations {
        r := Ok(attestations[id]);
      } else {
        r := Err(NotFound);
      }
    }

    /** `delete_attestation`: remove `id`, or fail with `NotFound` and change nothing. */
    method DeleteAttestation(id: string) returns (r: Result<Unit, StorageError>)
      requires Valid()
      modifies this
      ensures Valid()
      ensures r.Ok? <==> id in old(attestations)
      ensures r.Err? ==> r.error == NotFound
      ensures r.Ok? ==> attestations == old(attestations) - {id}
      ensures r.Err? ==> attestations == old(attestations)
    {
      if id !in attestations {
        return Err(NotFound);
      }
      attestations := attestations - {id};
      r := Ok(Unit);
    }

    /**
     * `list_attestations`: every stored attestation exactly once, in an order the
     * model leaves open (a `HashMap` iterates in no specified order).
     */
    method ListAttestations() returns (r: Result<seq<Attestation>, StorageError>)
      requires Valid()
      ensures r.Ok?
      ensures |r.value| == |attestations|
      ensures forall i :: 0 <= i < |r.value| ==> r.value[i].id in attestations && attestations[r.value[i].id] == r.value[i]
      ensures forall i, j :: 0 <= i < j < |r.value| ==> r.value[i].id != r.value[j].id
      ensures forall id :: id in attestations ==> exists i :: 0 <= i < |r.value| && r.value[i].id == id
    {
      var out: seq<Attestation> := [];
      var remaining := attestations.Keys;
      while remaining != {}
        invariant remaining <= attestations.Keys
        invariant |out| + |remaining| == |attestations|
        invariant forall i :: 0 <= i < |out| ==> out[i].id in attestations && attestations[out[i].id] == out[i]
        invariant forall i :: 0 <= i < |out| ==> out[i].id !in remaining
        invariant forall i, j :: 0 <= i < j < |out| ==> out[i].id != out[j].id
        invariant forall id :: id in attestations && id !in remaining ==> exists i :: 0 <= i < |out| && out[i].id == id
        decreases remaining
      {
        var id :| id in remaining;
        ghost var before := out;
        out := out + [attestations[id]];
        remaining := remaining - {id};
        assert out[|out| - 1].id == id;
        forall other | other in attestations && other !in remaining
          ensures exists i :: 0 <= i < |out| && out[i].id == other
        {
          if other != id {
            var i :| 0 <= i < |before| && before[i].id == other;
            assert out[i] == before[i];
          }
        }
      }
      r := Ok(out);
    }
  }

  /**
   * The storage test, step by step: store two attestations, get the first back,
   * list both, delete the first; afterwards getting it fails, and getting or
   * deleting an id never stored fails too.
   */
  method StorageScenario(a1: Attestation, a2: Attestation, unknown: string)
    returns (retrieved: Result<Attestation, StorageError>, listed: Result<seq<Attestation>, StorageError>,
             deleted: Result<Unit, StorageError>, afterDelete: Result<Attestation, StorageError>,
             unknownGet: Result<Attestation, StorageError>, unknownDelete: Result<Unit, StorageError>)
    requires a1.id != a2.id && unknown != a1.id && unknown != a2.id
    ensures retrieved == Ok(a1)
    ensures listed.Ok? && |listed.value| == 2
    ensures deleted.Ok?
    ensures afterDelete == Err(NotFound)
    ensures unknownGet == Err(NotFound) && unknownDelete == Err(NotFound)
  {
    var storage := new InMemoryAttestationStorage();
    var _ := storage.StoreAttestation(a1);
    var _ := storage.StoreAttestation(a2);
    retrieved := storage.GetAttestation(a1.id);
    listed := storage.ListAttestations();
    deleted := storage.DeleteAttestation(a1.id);
    assert a1.id !in storage.attestations;
    afterDelete := storage.GetAttestation(a1.id);
    unknownGet := storage.GetAttestation(unknown);
    unknownDelete := storage.DeleteAttestation(unknown);
  }
}
