/** Value types shared by every component. */
module Types {

  datatype Option<+T> = None | Some(value: T)

  /** An octet; shifts and masks of the source are written as `*`, `/` and `%` by powers of two. */
  type byte = i: nat | i < 256

  /** The 16 bytes of an event id (src/audit/domain/event_id.hpp). */
  datatype EventId = EventId(bytes: seq<byte>)

  predicate Nil(id: EventId) {
    forall i :: 0 <= i < |id.bytes| ==> id.bytes[i] == 0
  }

  /** Sixteen bytes of a version 7 UUID (section 5.7 of RFC 9562). */
  predicate Version7(id: EventId) {
    |id.bytes| == 16 && id.bytes[6] / 16 == 7 && id.bytes[8] / 64 == 2
  }

  predicate KnownId(id: EventId) {
    |id.bytes| == 16 && (Nil(id) || Version7(id))
  }

  /** IngestionOutcomeStatus. */
  datatype OutcomeStatus =
    | PersistedNew | DuplicateCommitted | DuplicateCoalesced | IdempotencyConflict | ValidationRejected
    | UnauthorizedProducer | QueueOverloaded | PersistenceFailed | PersistenceAmbiguous

  /** PersistAckResult: what the owner of a reservation tells the coalesced waiters. */
  datatype Ack = Ack(status: OutcomeStatus, id: EventId, receivedAt: int, code: string, message: string)

  /** A SHA-256 digest over the payload bytes; the hash itself stays abstract. */
  datatype Fingerprint = Fingerprint(digest: seq<byte>)
}
