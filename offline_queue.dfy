/**
 * The browser-side queue of shorten requests that could not be sent
 * (frontend/src/lib/offlineQueue.js). The queue lives in localStorage under
 * one key as a JSON array; every operation reads the whole array, changes it
 * and writes it back.
 */
module OfflineQueue {

  /** The localStorage key the queue is persisted under. */
  const KEY := "offline_shortens_v1"

  /** One pending shorten request. `createdAt` is an opaque timestamp. */
  datatype Entry = Entry(id: string, longUrl: string, createdAt: string)

  /**
   * What localStorage holds under KEY: nothing, text that JSON.parse
   * rejects, or a JSON array of entries.
   */
  datatype Slot = Missing | Unparsable(text: string) | Stored(entries: seq<Entry>)

  /** The entries of `q` whose id is not in `ids`, in their original order. */
  function Without(q: seq<Entry>, ids: set<string>): (r: seq<Entry>)
    ensures |r| <= |q|
  {
    if q == [] then []
    else (if q[0].id in ids then [] else [q[0]]) + Without(q[1..], ids)
  }

  /** Filtering keeps exactly the entries whose id is not removed. */
  lemma {:induction false} WithoutMembership(q: seq<Entry>, ids: set<string>, e: Entry)
    ensures e in Without(q, ids) <==> e in q && e.id !in ids
  {
    if q != [] {
      WithoutMembership(q[1..], ids, e);
      assert q == [q[0]] + q[1..];
    }
  }

  /** Filtering distributes over concatenation, so relative order is kept. */
  lemma {:induction false} WithoutConcat(a: seq<Entry>, b: seq<Entry>, ids: set<string>)
    ensures Without(a + b, ids) == Without(a, ids) + Without(b, ids)
  {
    if a == [] {
      assert a + b == b;
    } else {
      assert (a + b)[0] == a[0];
      assert (a + b)[1..] == a[1..] + b;
      WithoutConcat(a[1..], b, ids);
    }
  }

  /** Removing ids that no entry carries (in particular, no ids) changes nothing. */
  lemma {:induction false} WithoutAbsent(q: seq<Entry>, ids: set<string>)
    requires forall i :: 0 <= i < |q| ==> q[i].id !in ids
    ensures Without(q, ids) == q
  {
    if q != [] {
      WithoutAbsent(q[1..], ids);
      assert q == [q[0]] + q[1..];
    }
  }

  /** Removing in two rounds is removing the union in one. */
  lemma {:induction false} WithoutTwice(q: seq<Entry>, a: set<string>, b: set<string>)
    ensures Without(Without(q, a), b) == Without(q, a + b)
  {
    if q != [] {
      WithoutTwice(q[1..], a, b);
      var head := if q[0].id in a then [] else [q[0]];
      WithoutConcat(head, Without(q[1..], a), b);
    }
  }

  /** removeByIds is idempotent: the second application finds nothing to remove. */
  lemma WithoutIdempotent(q: seq<Entry>, ids: set<string>)
    ensures Without(Without(q, ids), ids) == Without(q, ids)
  {
    WithoutTwice(q, ids, ids);
    assert ids + ids == ids;
  }

  /** Enqueueing under an id no entry has, then removing that id, restores the queue. */
  lemma EnqueueThenRemove(q: seq<Entry>, e: Entry)
    requires forall i :: 0 <= i < |q| ==> q[i].id != e.id
    ensures Without(q + [e], {e.id}) == q
  {
    WithoutConcat(q, [e], {e.id});
    WithoutAbsent(q, {e.id});
    assert Without([e], {e.id}) == [];
  }

  /** The persisted queue: the localStorage slot under KEY. */
  class PendingQueue {
    var slot: Slot

    constructor (initial: Slot)
      ensures slot == initial
    {
      slot := initial;
    }

    /** readQueue: a missing key or text that does not parse reads as the empty queue. */
    function ReadQueue(): (q: seq<Entry>)
      reads this
      ensures slot.Stored? ==> q == slot.entries
      ensures !slot.Stored? ==> q == []
    {
      if slot.Stored? then slot.entries else []
    }

    /** writeQueue: persists `arr`, which the next read returns unchanged. */
    method WriteQueue(arr: seq<Entry>)
      modifies this
      ensures slot == Stored(arr)
      ensures ReadQueue() == arr
    {
      slot := Stored(arr);
    }

    /**
     * enqueueShorten: appends one entry at the end and returns the new length.
     * `id` and `createdAt` stand for crypto.randomUUID() and the current time.
     */
    method EnqueueShorten(longUrl: string, id: string, createdAt: string) returns (n: nat)
      modifies this
      ensures ReadQueue() == old(ReadQueue()) + [Entry(id, longUrl, createdAt)]
      ensures n == |ReadQueue()| == |old(ReadQueue())| + 1
    {
      var q := ReadQueue();
      q := q + [Entry(id, longUrl, createdAt)];
      WriteQueue(q);
      n := |q|;
    }

    /** countPending: the number of stored entries. */
    method CountPending() returns (n: nat)
      ensures n == |ReadQueue()|
    {
      var q := ReadQueue();
      n := |q|;
    }

    /** peekAll: the stored entries, oldest first. */
    method PeekAll() returns (q: seq<Entry>)
      ensures q == ReadQueue()
    {
      q := ReadQueue();
    }

    /**
     * removeByIds: drops every entry whose id is in `ids`, keeps the rest in
     * order, persists the result and returns its length.
     */
    method RemoveByIds(ids: seq<string>) returns (n: nat)
      modifies this
      ensures ReadQueue() == Without(old(ReadQueue()), set x | x in ids)
      ensures n == |ReadQueue()| <= |old(ReadQueue())|
    {
      var drop := set x | x in ids;
      var q := Without(ReadQueue(), drop);
      WriteQueue(q);
      n := |q|;
    }
  }

  /** Enqueue followed by count: the count grows by exactly one. */
  method EnqueueThenCount(pq: PendingQueue, longUrl: string, id: string, createdAt: string)
    returns (before: nat, after: nat)
    modifies pq
    ensures after == before + 1
  {
    before := pq.CountPending();
    var _ := pq.EnqueueShorten(longUrl, id, createdAt);
    after := pq.CountPending();
  }
}
