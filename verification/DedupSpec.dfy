/** One shard of the deduplication cache as a value: what each mutex-protected section computes. */
module DedupSpec {
  import opened Types

  /** A reservation; `promise` names the slot that the owner will fulfil and the waiters read. */
  datatype InFlight = InFlight(fp: Fingerprint, promise: nat)

  datatype Entry = Entry(id: EventId, fp: Fingerprint, receivedAt: int, expiresAt: int)

  /** `lru` lists the committed entries, most recently used first. */
  datatype Shard = Shard(inFlight: map<EventId, InFlight>, lru: seq<Entry>)

  datatype Decision =
    | AcquiredNewInFlight(promise: nat)
    | CoalescedInFlight(promise: nat)
    | AlreadyCommitted(receivedAt: int)
    | PayloadConflict

  const EMPTY := Shard(map[], [])

  function Lookup(lru: seq<Entry>, id: EventId): (r: Option<Entry>)
    ensures r.Some? ==> r.value in lru && r.value.id == id
  {
    if lru == [] then None
    else if lru[0].id == id then Some(lru[0])
    else Lookup(lru[1..], id)
  }

  /** The list with the node of `id` unlinked; the others keep their order. */
  function Without(lru: seq<Entry>, id: EventId): seq<Entry> {
    if lru == [] then []
    else if lru[0].id == id then Without(lru[1..], id)
    else [lru[0]] + Without(lru[1..], id)
  }

  function Unexpired(lru: seq<Entry>, now: int): seq<Entry> {
    if lru == [] then []
    else if now >= lru[0].expiresAt then Unexpired(lru[1..], now)
    else [lru[0]] + Unexpired(lru[1..], now)
  }

  /** The in-flight half of try_acquire; `ticket` names the promise a new reservation gets. */
  function AcquireInFlight(s: Shard, id: EventId, fp: Fingerprint, ticket: nat): (Shard, Decision) {
    if id in s.inFlight then
      (s, if s.inFlight[id].fp != fp then PayloadConflict else CoalescedInFlight(s.inFlight[id].promise))
    else
      (s.(inFlight := s.inFlight[id := InFlight(fp, ticket)]), AcquiredNewInFlight(ticket))
  }

  function Acquire(s: Shard, id: EventId, fp: Fingerprint, now: int, ticket: nat): (Shard, Decision) {
    match Lookup(s.lru, id)
    case None => AcquireInFlight(s, id, fp, ticket)
    case Some(e) =>
      if now >= e.expiresAt then AcquireInFlight(s.(lru := Without(s.lru, id)), id, fp, ticket)
      else if e.fp != fp then (s, PayloadConflict)
      else (s.(lru := [e] + Without(s.lru, id)), AlreadyCommitted(e.receivedAt))
  }

  function Truncated(lru: seq<Entry>, capacity: nat): seq<Entry> {
    if |lru| <= capacity then lru else lru[..capacity]
  }

  /** mark_committed: the new shard and the promise to fulfil, if the id was in flight. */
  function Commit(s: Shard, id: EventId, receivedAt: int, now: int, ttl: int, capacity: nat): (Shard, Option<nat>) {
    if id !in s.inFlight then (s, None)
    else
      var e := Entry(id, s.inFlight[id].fp, receivedAt, now + ttl);
      (Shard(s.inFlight - {id}, Truncated([e] + Without(s.lru, id), capacity)), Some(s.inFlight[id].promise))
  }

  function Rollback(s: Shard, id: EventId): (Shard, Option<nat>) {
    if id !in s.inFlight then (s, None)
    else (s.(inFlight := s.inFlight - {id}), Some(s.inFlight[id].promise))
  }

  function EvictExpired(s: Shard, now: int): Shard {
    s.(lru := Unexpired(s.lru, now))
  }

  lemma {:induction false} WithoutSelects(lru: seq<Entry>, id: EventId, e: Entry)
    ensures e in Without(lru, id) <==> e in lru && e.id != id
  {
    if lru != [] {
      WithoutSelects(lru[1..], id, e);
      assert lru == [lru[0]] + lru[1..];
    }
  }

  lemma {:induction false} UnexpiredSelects(lru: seq<Entry>, now: int, e: Entry)
    ensures e in Unexpired(lru, now) <==> e in lru && now < e.expiresAt
  {
    if lru != [] {
      UnexpiredSelects(lru[1..], now, e);
      assert lru == [lru[0]] + lru[1..];
    }
  }
}
