/** The deduplication cache as the code keeps it: per shard a list of nodes, an index of iterators
    into that list and a map of reservations, all updated in place. */
module DedupCache {
  import opened Types
  import opened DedupSpec

  /** A list iterator: nodes keep their handle while others are inserted, moved or erased. */
  type Handle = nat

  /** The list `order` and the index describe the same entries: every node is indexed under its own
      id, every index entry points to a node, and reading the nodes in order yields `lru`. */
  ghost predicate Linked(order: seq<Handle>, node: map<Handle, Entry>, index: map<EventId, Handle>, lru: seq<Entry>) {
    if order == [] then node == map[] && index == map[] && lru == []
    else
      && lru != []
      && order[0] in node && node[order[0]] == lru[0]
      && lru[0].id in index && index[lru[0].id] == order[0]
      && Linked(order[1..], node - {order[0]}, index - {lru[0].id}, lru[1..])
  }

  function Unlink(order: seq<Handle>, h: Handle): seq<Handle> {
    if order == [] then []
    else if order[0] == h then order[1..]
    else [order[0]] + Unlink(order[1..], h)
  }

  lemma {:induction false} LinkedSize(order: seq<Handle>, node: map<Handle, Entry>, index: map<EventId, Handle>,
                                      lru: seq<Entry>)
    requires Linked(order, node, index, lru)
    ensures |order| == |lru| == |index| == |node|
  {
    if order != [] {
      var h, id := order[0], lru[0].id;
      LinkedSize(order[1..], node - {h}, index - {id}, lru[1..]);
      assert index == (index - {id})[id := h];
      assert node == (node - {h})[h := lru[0]];
    }
  }

  lemma {:induction false} LinkedAt(order: seq<Handle>, node: map<Handle, Entry>, index: map<EventId, Handle>,
                                    lru: seq<Entry>, i: nat)
    requires Linked(order, node, index, lru) && i < |order|
    ensures |lru| == |order| && order[i] in node && node[order[i]] == lru[i]
    ensures lru[i].id in index && index[lru[i].id] == order[i]
  {
    LinkedSize(order, node, index, lru);
    if i > 0 {
      LinkedAt(order[1..], node - {order[0]}, index - {lru[0].id}, lru[1..], i - 1);
    }
  }

  /** The index answers what a scan of the list answers. */
  lemma {:induction false} IndexFinds(order: seq<Handle>, node: map<Handle, Entry>, index: map<EventId, Handle>,
                                      lru: seq<Entry>, id: EventId)
    requires Linked(order, node, index, lru)
    ensures id in index <==> Lookup(lru, id).Some?
    ensures id in index ==> index[id] in node && node[index[id]] == Lookup(lru, id).value
  {
    if order != [] && lru[0].id != id {
      IndexFinds(order[1..], node - {order[0]}, index - {lru[0].id}, lru[1..], id);
    }
  }

  lemma {:induction false} WithoutAbsent(lru: seq<Entry>, id: EventId)
    requires Lookup(lru, id).None?
    ensures Without(lru, id) == lru
  {
    if lru != [] {
      WithoutAbsent(lru[1..], id);
    }
  }

  lemma {:induction false} EraseLinked(order: seq<Handle>, node: map<Handle, Entry>, index: map<EventId, Handle>,
                                       lru: seq<Entry>, id: EventId)
    requires Linked(order, node, index, lru) && id in index
    ensures Linked(Unlink(order, index[id]), node - {index[id]}, index - {id}, Without(lru, id))
    ensures |Without(lru, id)| == |lru| - 1
  {
    var h, x := order[0], lru[0].id;
    if x == id {
      IndexFinds(order[1..], node - {h}, index - {x}, lru[1..], id);
      WithoutAbsent(lru[1..], id);
    } else {
      EraseLinked(order[1..], node - {h}, index - {x}, lru[1..], id);
      IndexFinds(order[1..], node - {h}, index - {x}, lru[1..], id);
      assert (node - {h}) - {index[id]} == (node - {index[id]}) - {h};
      assert (index - {x}) - {id} == (index - {id}) - {x};
      assert Without(lru, id)[1..] == Without(lru[1..], id);
      assert Unlink(order, index[id])[1..] == Unlink(order[1..], index[id]);
    }
  }

  lemma PushLinked(order: seq<Handle>, node: map<Handle, Entry>, index: map<EventId, Handle>, lru: seq<Entry>,
                   h: Handle, e: Entry)
    requires Linked(order, node, index, lru) && h !in node && e.id !in index
    ensures Linked([h] + order, node[h := e], index[e.id := h], [e] + lru)
  {
    assert ([h] + order)[1..] == order;
    assert ([e] + lru)[1..] == lru;
    assert node[h := e] - {h} == node;
    assert index[e.id := h] - {e.id} == index;
  }

  lemma SpliceLinked(order: seq<Handle>, node: map<Handle, Entry>, index: map<EventId, Handle>, lru: seq<Entry>,
                     id: EventId)
    requires Linked(order, node, index, lru) && id in index
    ensures index[id] in node && node[index[id]].id == id
    ensures Linked([index[id]] + Unlink(order, index[id]), node, index, [node[index[id]]] + Without(lru, id))
  {
    var h := index[id];
    EraseLinked(order, node, index, lru, id);
    IndexFinds(order, node, index, lru, id);
    PushLinked(Unlink(order, h), node - {h}, index - {id}, Without(lru, id), h, node[h]);
    assert (node - {h})[h := node[h]] == node;
    assert (index - {id})[id := h] == index;
  }

  lemma {:induction false} PopBackLinked(order: seq<Handle>, node: map<Handle, Entry>, index: map<EventId, Handle>,
                                         lru: seq<Entry>)
    requires Linked(order, node, index, lru) && order != []
    ensures |order| == |lru|
    ensures var n := |order| - 1;
            Linked(order[..n], node - {order[n]}, index - {lru[n].id}, lru[..n])
  {
    LinkedSize(order, node, index, lru);
    var n := |order| - 1;
    if n > 0 {
      var h, x := order[0], lru[0].id;
      PopBackLinked(order[1..], node - {h}, index - {x}, lru[1..]);
      LinkedAt(order[1..], node - {h}, index - {x}, lru[1..], n - 1);
      assert order[1..][..n - 1] == order[..n][1..] && lru[1..][..n - 1] == lru[..n][1..];
      assert (node - {h}) - {order[n]} == (node - {order[n]}) - {h};
      assert (index - {x}) - {lru[n].id} == (index - {lru[n].id}) - {x};
    } else {
      assert order[..n] == [] && lru[..n] == [];
    }
  }

  lemma CutTail<T>(s: seq<T>, i: nat)
    requires 0 < i < |s|
    ensures [s[0]] + (s[1..][..i - 1] + s[1..][i..]) == s[..i] + s[i + 1..]
  {
  }

  /** Erasing the node at a position cuts the list there. */
  lemma {:induction false} EraseAt(order: seq<Handle>, node: map<Handle, Entry>, index: map<EventId, Handle>,
                                   lru: seq<Entry>, i: nat)
    requires Linked(order, node, index, lru) && i < |order|
    ensures |lru| == |order|
    ensures Unlink(order, order[i]) == order[..i] + order[i + 1..]
    ensures Without(lru, lru[i].id) == lru[..i] + lru[i + 1..]
  {
    LinkedSize(order, node, index, lru);
    var h, x := order[0], lru[0].id;
    if i == 0 {
      IndexFinds(order[1..], node - {h}, index - {x}, lru[1..], x);
      WithoutAbsent(lru[1..], x);
    } else {
      LinkedAt(order[1..], node - {h}, index - {x}, lru[1..], i - 1);
      EraseAt(order[1..], node - {h}, index - {x}, lru[1..], i - 1);
      CutTail(order, i);
      CutTail(lru, i);
    }
  }

  lemma NothingUnexpired(now: int)
    ensures Unexpired([], now) == []
  {
  }

  /** What the sweep keeps of the entries from the i-th on. */
  lemma SweepEntry(lru: seq<Entry>, i: nat, now: int)
    requires i < |lru|
    ensures lru[..i] + Unexpired(lru[i..], now) ==
            (if now >= lru[i].expiresAt then lru[..i] else lru[..i + 1]) + Unexpired(lru[i + 1..], now)
  {
    var rest := lru[i..];
    assert rest[0] == lru[i] && rest[1..] == lru[i + 1..];
    assert lru[..i + 1] == lru[..i] + [lru[i]];
  }

  /** One shard; each method is one section under the shard's mutex. */
  class CacheShard {
    var inFlight: map<EventId, InFlight>
    var order: seq<Handle>
    var node: map<Handle, Entry>
    var index: map<EventId, Handle>
    var nextHandle: Handle
    ghost var lru: seq<Entry>

    ghost predicate Valid()
      reads this
    {
      Linked(order, node, index, lru) && forall h :: h in node ==> h < nextHandle
    }

    ghost function State(): Shard
      reads this
    {
      Shard(inFlight, lru)
    }

    constructor ()
      ensures Valid() && State() == EMPTY
    {
      inFlight, order, node, index, nextHandle, lru := map[], [], map[], map[], 0, [];
    }

    method Erase(id: EventId)
      requires Valid() && id in index
      modifies this
      ensures Valid() && State() == old(State()).(lru := Without(old(lru), id))
      ensures index == old(index) - {id}
    {
      var h := index[id];
      EraseLinked(order, node, index, lru, id);
      order, node, index := Unlink(order, h), node - {h}, index - {id};
      lru := Without(lru, id);
    }

    method PushFront(e: Entry)
      requires Valid() && e.id !in index
      modifies this
      ensures Valid() && State() == old(State()).(lru := [e] + old(lru))
    {
      var h := nextHandle;
      PushLinked(order, node, index, lru, h, e);
      nextHandle := nextHandle + 1;
      order, node, index := [h] + order, node[h := e], index[e.id := h];
      lru := [e] + lru;
    }

    method TryAcquire(id: EventId, fp: Fingerprint, now: int, ticket: nat) returns (d: Decision)
      requires Valid()
      modifies this
      ensures Valid() && (State(), d) == Acquire(old(State()), id, fp, now, ticket)
    {
      IndexFinds(order, node, index, lru, id);
      if id in index {
        var e := node[index[id]];
        if now >= e.expiresAt {
          Erase(id);
        } else {
          if e.fp != fp {
            return PayloadConflict;
          }
          SpliceLinked(order, node, index, lru, id);
          order := [index[id]] + Unlink(order, index[id]);
          lru := [e] + Without(lru, id);
          return AlreadyCommitted(e.receivedAt);
        }
      }
      if id in inFlight {
        if inFlight[id].fp != fp {
          return PayloadConflict;
        }
        return CoalescedInFlight(inFlight[id].promise);
      }
      inFlight := inFlight[id := InFlight(fp, ticket)];
      d := AcquiredNewInFlight(ticket);
    }

    /** The eviction loop of mark_committed. */
    method EvictOverflow(capacity: nat)
      requires Valid()
      modifies this
      ensures Valid() && State() == old(State()).(lru := Truncated(old(lru), capacity))
    {
      hide Linked, Unlink, Without, Unexpired;
      LinkedSize(order, node, index, lru);
      while |index| > capacity
        invariant Valid() && |index| == |lru| == |order| <= |old(lru)|
        invariant inFlight == old(inFlight)
        invariant lru == old(lru)[..|lru|] && (|lru| < |old(lru)| ==> |lru| >= capacity)
      {
        var n := |order| - 1;
        PopBackLinked(order, node, index, lru);
        LinkedAt(order, node, index, lru, n);
        index := index - {node[order[n]].id};
        order, node := order[..n], node - {order[n]};
        assert lru[..n] == old(lru)[..n];
        lru := lru[..n];
        LinkedSize(order, node, index, lru);
      }
    }

    method MarkCommitted(id: EventId, receivedAt: int, now: int, ttl: int, capacity: nat) returns (promise: Option<nat>)
      requires Valid()
      modifies this
      ensures Valid() && (State(), promise) == Commit(old(State()), id, receivedAt, now, ttl, capacity)
    {
      if id !in inFlight {
        return None;
      }
      var fp := inFlight[id].fp;
      promise := Some(inFlight[id].promise);
      inFlight := inFlight - {id};
      IndexFinds(order, node, index, lru, id);
      if id in index {
        Erase(id);
      } else {
        WithoutAbsent(lru, id);
      }
      PushFront(Entry(id, fp, receivedAt, now + ttl));
      EvictOverflow(capacity);
    }

    method RollbackInFlight(id: EventId) returns (promise: Option<nat>)
      requires Valid()
      modifies this
      ensures Valid() && (State(), promise) == Rollback(old(State()), id)
    {
      if id !in inFlight {
        return None;
      }
      promise := Some(inFlight[id].promise);
      inFlight := inFlight - {id};
    }

    method EvictExpired(now: int) returns (evicted: nat)
      requires Valid()
      modifies this
      ensures Valid() && State() == DedupSpec.EvictExpired(old(State()), now)
      ensures evicted == |old(lru)| - |lru|
    {
      hide Without, Unlink, Linked, Unexpired;
      var i := 0;
      evicted := 0;
      LinkedSize(order, node, index, lru);
      assert lru[..0] == [] && lru[0..] == lru;
      assert [] + Unexpired(lru, now) == Unexpired(lru, now);
      while i < |order|
        invariant Valid() && inFlight == old(inFlight) && i <= |order| == |lru|
        invariant evicted == |old(lru)| - |lru|
        invariant lru[..i] + Unexpired(lru[i..], now) == Unexpired(old(lru), now)
        decreases |order| - i
      {
        LinkedAt(order, node, index, lru, i);
        if now >= node[order[i]].expiresAt {
          EraseAt(order, node, index, lru, i);
          ghost var before := lru;
          Erase(node[order[i]].id);
          evicted := evicted + 1;
          assert lru[..i] == before[..i] && lru[i..] == before[i + 1..];
          SweepEntry(before, i, now);
          LinkedSize(order, node, index, lru);
        } else {
          SweepEntry(lru, i, now);
          i := i + 1;
        }
      }
      NothingUnexpired(now);
      assert lru[..i] == lru && lru[i..] == [] && lru + [] == lru;
    }
  }
}
