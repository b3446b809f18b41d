/** The attestation record that every other component passes around. */
module Attestations {
  import Json

  /**
   * Nanoseconds in one day. Timestamps are instants counted in nanoseconds (the
   * resolution of `chrono::DateTime<Utc>`), so an age compares directly with a
   * number of days times this constant.
   */
  const NANOS_PER_DAY: int := 86_400_000_000_000

  /** An immutable signed claim: who issued it, when, and its free-form JSON content. */
  datatype Attestation = Attestation(id: string, issuer: string, timestamp: int, content: Json.Value)
}
