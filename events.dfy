/**
 * Lifecycle events: the event record, its kinds and subjects, the constructor
 * and the metadata update. The random identifier and the clock reading that the
 * constructor draws are its parameters here.
 */
module Events {
  import Json

  datatype SubjectType = Attestation | Build | Artifact | Deployment | Policy

  datatype BuildStatus = Success | Failure | Cancelled

  datatype DeploymentStatus = Success | Failure | Rollback

  datatype EventSubject = EventSubject(id: string, subjectType: SubjectType)

  /**
   * `CDEventType`. The two `status` fields have different types, so they are
   * named `buildStatus` and `deploymentStatus`.
   */
  datatype CDEventType =
    | AttestationCreated(attestationId: string, attestationUri: string)
    | AttestationVerified(attestationId: string, isValid: bool)
    | BuildStarted(buildId: string)
    | BuildCompleted(buildId: string, buildStatus: BuildStatus)
    | ArtifactPublished(artifactId: string, artifactType: string)
    | DeploymentStarted(deploymentId: string, environment: string)
    | DeploymentCompleted(deploymentId: string, environment: string, deploymentStatus: DeploymentStatus)
    | PolicyUpdated(policyId: string, version: string)

  /** `CDEvent`; `timestamp` is in nanoseconds since the Unix epoch. */
  datatype CDEvent = CDEvent(id: string, timestamp: int, eventType: CDEventType, subject: EventSubject, metadata: Json.Value)

  /**
   * `CDEvent::new`: an event of the given kind and subject, with no metadata.
   * `id` stands for the fresh v4 UUID and `now` for the current time.
   */
  function NewEvent(eventType: CDEventType, subject: EventSubject, id: string, now: int): (e: CDEvent)
    ensures e.eventType == eventType && e.subject == subject
    ensures e.metadata == Json.Null
    ensures e.id == id && e.timestamp == now
  {
    CDEvent(id, now, eventType, subject, Json.Null)
  }

  /** `with_metadata`: the same event with its metadata replaced. */
  function WithMetadata(e: CDEvent, metadata: Json.Value): (r: CDEvent)
    ensures r.metadata == metadata
    ensures r.id == e.id && r.timestamp == e.timestamp && r.eventType == e.eventType && r.subject == e.subject
  {
    e.(metadata := metadata)
  }

  /**
   * Only the last metadata given counts, and giving an event its own metadata
   * changes nothing.
   */
  lemma WithMetadataLaws(e: CDEvent, m1: Json.Value, m2: Json.Value)
    ensures WithMetadata(WithMetadata(e, m1), m2) == WithMetadata(e, m2)
    ensures WithMetadata(e, e.metadata) == e
  {
  }

  /** Two events built alike differ at most in their metadata, which `WithMetadata` can make equal. */
  lemma NewEventDeterminedByInputs(t: CDEventType, s: EventSubject, id: string, now: int, e: CDEvent)
    requires e.id == id && e.timestamp == now && e.eventType == t && e.subject == s
    ensures WithMetadata(NewEvent(t, s, id, now), e.metadata) == e
  {
  }

  /** An attestation-created event for "att123" keeps the attestation's id, its URI and its subject. */
  lemma AttestationCreatedScenario(id: string, now: int)
    ensures var e := NewEvent(AttestationCreated("att123", "http://example.com/attestations/att123"),
                              EventSubject("att123", SubjectType.Attestation), id, now);
            && e.subject.id == "att123"
            && e.eventType.AttestationCreated?
            && e.eventType.attestationId == "att123"
            && e.eventType.attestationUri == "http://example.com/attestations/att123"
            && e.metadata == Json.Null
  {
  }

  /** A successful build-completed event with a metadata object exposes its duration through indexing. */
  lemma BuildCompletedScenario(id: string, now: int)
    ensures var metadata := Json.Object(map["duration_seconds" := Json.Num(Json.Int(120)),
                                            "artifact_count" := Json.Num(Json.Int(3))]);
            var e := WithMetadata(NewEvent(BuildCompleted("build456", BuildStatus.Success),
                                           EventSubject("build456", SubjectType.Build), id, now), metadata);
            && e.subject.id == "build456"
            && e.eventType.BuildCompleted?
            && e.eventType.buildId == "build456"
            && e.eventType.buildStatus == BuildStatus.Success
            && Json.Index(e.metadata, "duration_seconds") == Json.Num(Json.Int(120))
  {
  }
}
