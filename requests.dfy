/**
 * What the routes of both server trees answer, the shape of their request
 * fields, and the outcome of a call to an outside HTTP service.
 */
module Requests {
  import opened Wrappers
  import opened Ids
  import opened Schema
  import Store

  /** The body of a successful response. */
  datatype Payload =
    | Message(text: string)
    | SecretIssued(secret: string)
    | PartyCredentials(secret: string, code: string)
    | TrackStatus(track: Option<Track>)
    | Joined(party: Party)
    | LevelheadInfo(song: LevelheadTrack)
    | Empty

  /**
   * The status a route answers with. NoResponse is a handler that returns
   * without calling `respond`.
   */
  datatype Response =
    | BadRequest
    | NotFound
    | Forbidden
    | InternalError
    | NoResponse
    | Ok(payload: Payload)

  /** The outcome of a call to an outside service: it threw, or it answered with a (possibly null) body. */
  datatype Upstream<T> = Failed | Answered(body: Option<T>)

  /** Kotlin's `field?.length == n`: the field is present and has exactly n characters. */
  predicate HasLength(field: Option<string>, n: nat) {
    field.Some? && |field.value| == n
  }

  /** The request carries a uuid and a session secret of the lengths the newer routes demand. */
  predicate Identified(uuid: Option<string>, secret: Option<string>) {
    HasLength(uuid, UuidLength) && HasLength(secret, SecretLength)
  }

  /** ... and the secret is the one on file for that user. */
  predicate Authorised(db: Store.Db, uuid: Option<string>, secret: Option<string>) {
    Identified(uuid, secret) && Store.SessionGuard(db, uuid.value, secret.value)
  }
}
