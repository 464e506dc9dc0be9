/** Identifiers and time, as the workout model uses them. */
module Identifiers {

  /** A Foundation `UUID`: only equality is ever used, never its structure. */
  datatype Uuid = Uuid(raw: nat)

  /** Seconds; a Foundation `Date` is modelled by the whole seconds it denotes. */
  type Instant = int

  /** The expiry window of a session: 12 hours, in seconds. */
  const TwelveHours: int := 12 * 60 * 60
}
