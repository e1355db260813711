/**
 * syncPendingShortens (frontend/src/lib/syncQueue.js): replays every queued
 * shorten request against the server, oldest first. A success removes the
 * entry; a network error, a non-ok response or an exception marks it failed
 * and the loop goes on to the next entry. Failed entries stay queued.
 *
 * syncQueue.js imports listPending, removeItem and markFailed, which
 * offlineQueue.js does not define. Here listPending is PeekAll, removeItem(id)
 * is RemoveByIds([id]), and markFailed leaves the queue as it is and is
 * recorded in the trace.
 */
module SyncQueue {
  import opened Wrappers
  import opened Api
  import opened OfflineQueue

  /** The value passed to onDone and returned. */
  datatype Summary = Summary(synced: nat, total: nat)

  /** What the loop does, in order: calls, queue changes and callbacks. */
  datatype Event =
    | Attempted(item: Entry)                         // POST /api/shorten with item.longUrl
    | Removed(id: string)                            // removeItem(id)
    | ItemSynced(local: Entry, server: Option<Body>) // onItemSynced({local, server})
    | MarkedFailed(id: string, reason: string)       // markFailed(id, reason)
    | Done(summary: Summary)                         // onDone(summary)

  /** The call went through and the server answered with an ok status. */
  predicate Succeeded(r: ApiResult) {
    r.Response? && IsOk(r.status)
  }

  /** The reason passed to markFailed for a call that did not succeed. */
  function FailureReason(r: ApiResult): string {
    match r
    case NetworkError => "Network error during sync"
    case Response(_, data) => OrElse(ErrorOf(data), "Server error during sync")
    case Throws(message) => OrElse(Some(message), "Unknown sync error")
  }

  /** The events of one loop iteration for `item`, whose call returned `r`. */
  function Step(item: Entry, r: ApiResult): seq<Event> {
    [Attempted(item)] +
    if Succeeded(r) then [Removed(item.id), ItemSynced(item, r.data)]
    else [MarkedFailed(item.id, FailureReason(r))]
  }

  /** The events of the loop over `items`, the k-th call having returned rs[k]. */
  function Replay(items: seq<Entry>, rs: seq<ApiResult>): seq<Event>
    requires |items| == |rs|
  {
    if items == [] then []
    else Replay(items[..|items| - 1], rs[..|rs| - 1]) + Step(items[|items| - 1], rs[|rs| - 1])
  }

  /** How many calls succeeded. */
  function SyncedCount(items: seq<Entry>, rs: seq<ApiResult>): nat
    requires |items| == |rs|
  {
    if items == [] then 0
    else SyncedCount(items[..|items| - 1], rs[..|rs| - 1]) + (if Succeeded(rs[|rs| - 1]) then 1 else 0)
  }

  /** The ids passed to removeItem. */
  function SyncedIds(items: seq<Entry>, rs: seq<ApiResult>): set<string>
    requires |items| == |rs|
  {
    if items == [] then {}
    else SyncedIds(items[..|items| - 1], rs[..|rs| - 1]) + (if Succeeded(rs[|rs| - 1]) then {items[|items| - 1].id} else {})
  }

  /** Processing item i extends each summary of the first i items by that item alone. */
  lemma Advance(items: seq<Entry>, rs: seq<ApiResult>, i: nat)
    requires |items| == |rs| && i < |items|
    ensures Replay(items[..i + 1], rs[..i + 1]) == Replay(items[..i], rs[..i]) + Step(items[i], rs[i])
    ensures SyncedCount(items[..i + 1], rs[..i + 1]) == SyncedCount(items[..i], rs[..i]) + (if Succeeded(rs[i]) then 1 else 0)
    ensures Succeeded(rs[i]) ==> SyncedIds(items[..i + 1], rs[..i + 1]) == SyncedIds(items[..i], rs[..i]) + {items[i].id}
    ensures !Succeeded(rs[i]) ==> SyncedIds(items[..i + 1], rs[..i + 1]) == SyncedIds(items[..i], rs[..i])
  {
    assert items[..i + 1][..i] == items[..i];
    assert rs[..i + 1][..i] == rs[..i];
  }

  /** The value `f` picks out of one event, if any. */
  function Picked<T>(e: Event, f: Event -> Option<T>): seq<T> {
    match f(e)
    case Some(x) => [x]
    case None => []
  }

  /** The values `f` picks out of a trace, in trace order. */
  function Project<T>(trace: seq<Event>, f: Event -> Option<T>): seq<T> {
    if trace == [] then []
    else Project(trace[..|trace| - 1], f) + Picked(trace[|trace| - 1], f)
  }

  lemma ProjectSingle<T>(e: Event, f: Event -> Option<T>)
    ensures Project([e], f) == Picked(e, f)
  {
  }

  lemma {:induction false} ProjectConcat<T>(a: seq<Event>, b: seq<Event>, f: Event -> Option<T>)
    ensures Project(a + b, f) == Project(a, f) + Project(b, f)
  {
    if b == [] {
      assert a + b == a;
    } else {
      var b' := b[..|b| - 1];
      assert (a + b)[..|a + b| - 1] == a + b';
      ProjectConcat(a, b', f);
    }
  }

  function AttemptOf(e: Event): Option<Entry> {
    if e.Attempted? then Some(e.item) else None
  }

  function SyncOf(e: Event): Option<(Entry, Option<Body>)> {
    if e.ItemSynced? then Some((e.local, e.server)) else None
  }

  function FailureOf(e: Event): Option<(string, string)> {
    if e.MarkedFailed? then Some((e.id, e.reason)) else None
  }

  function DoneOf(e: Event): Option<Summary> {
    if e.Done? then Some(e.summary) else None
  }

  /** Reference definition: the successful items with the server's data, in snapshot order. */
  function Successes(items: seq<Entry>, rs: seq<ApiResult>): seq<(Entry, Option<Body>)>
    requires |items| == |rs|
  {
    if items == [] then []
    else
      Successes(items[..|items| - 1], rs[..|rs| - 1])
      + (if Succeeded(rs[|rs| - 1]) then [(items[|items| - 1], rs[|rs| - 1].data)] else [])
  }

  /** Reference definition: the failed items' ids with their reasons, in snapshot order. */
  function Failures(items: seq<Entry>, rs: seq<ApiResult>): seq<(string, string)>
    requires |items| == |rs|
  {
    if items == [] then []
    else
      Failures(items[..|items| - 1], rs[..|rs| - 1])
      + (if Succeeded(rs[|rs| - 1]) then [] else [(items[|items| - 1].id, FailureReason(rs[|rs| - 1]))])
  }

  /** What `f` picks out of one iteration's events. */
  lemma StepProject<T>(item: Entry, r: ApiResult, f: Event -> Option<T>)
    ensures Project(Step(item, r), f) ==
            Picked(Attempted(item), f) +
            if Succeeded(r) then Picked(Removed(item.id), f) + Picked(ItemSynced(item, r.data), f)
            else Picked(MarkedFailed(item.id, FailureReason(r)), f)
  {
    var a := [Attempted(item)];
    ProjectSingle(Attempted(item), f);
    if Succeeded(r) {
      var b, c := [Removed(item.id)], [ItemSynced(item, r.data)];
      assert Step(item, r) == a + b + c;
      ProjectConcat(a + b, c, f);
      ProjectConcat(a, b, f);
      ProjectSingle(Removed(item.id), f);
      ProjectSingle(ItemSynced(item, r.data), f);
    } else {
      var b := [MarkedFailed(item.id, FailureReason(r))];
      assert Step(item, r) == a + b;
      ProjectConcat(a, b, f);
      ProjectSingle(MarkedFailed(item.id, FailureReason(r)), f);
    }
  }

  /** The projections of one iteration's events. */
  lemma StepProjections(item: Entry, r: ApiResult)
    ensures Project(Step(item, r), AttemptOf) == [item]
    ensures Project(Step(item, r), SyncOf) == if Succeeded(r) then [(item, r.data)] else []
    ensures Project(Step(item, r), FailureOf) == if Succeeded(r) then [] else [(item.id, FailureReason(r))]
    ensures Project(Step(item, r), DoneOf) == []
  {
    StepProject(item, r, AttemptOf);
    StepProject(item, r, SyncOf);
    StepProject(item, r, FailureOf);
    StepProject(item, r, DoneOf);
  }

  /**
   * What the loop does, read off its trace: every snapshot item is attempted
   * exactly once and in snapshot order, onItemSynced fires for exactly the
   * successful items in order, markFailed for exactly the others in order,
   * and onDone is not called inside the loop.
   */
  lemma ReplayProjections(items: seq<Entry>, rs: seq<ApiResult>)
    requires |items| == |rs|
    ensures Project(Replay(items, rs), AttemptOf) == items
    ensures Project(Replay(items, rs), SyncOf) == Successes(items, rs)
    ensures Project(Replay(items, rs), FailureOf) == Failures(items, rs)
    ensures Project(Replay(items, rs), DoneOf) == []
  {
    ReplayAttempts(items, rs);
    ReplaySyncs(items, rs);
    ReplayFailures(items, rs);
    ReplayNoDone(items, rs);
  }

  lemma SplitLast<T>(s: seq<T>)
    requires s != []
    ensures s[..|s| - 1] + [s[|s| - 1]] == s
  {
  }

  lemma {:induction false} ReplayAttempts(items: seq<Entry>, rs: seq<ApiResult>)
    requires |items| == |rs|
    ensures Project(Replay(items, rs), AttemptOf) == items
  {
    if items != [] {
      var n := |items| - 1;
      var prev, step := Replay(items[..n], rs[..n]), Step(items[n], rs[n]);
      assert Replay(items, rs) == prev + step;
      ReplayAttempts(items[..n], rs[..n]);
      StepProjections(items[n], rs[n]);
      ProjectConcat(prev, step, AttemptOf);
      SplitLast(items);
    }
  }

  lemma {:induction false} ReplaySyncs(items: seq<Entry>, rs: seq<ApiResult>)
    requires |items| == |rs|
    ensures Project(Replay(items, rs), SyncOf) == Successes(items, rs)
  {
    if items != [] {
      var n := |items| - 1;
      ReplaySyncs(items[..n], rs[..n]);
      StepProjections(items[n], rs[n]);
      ProjectConcat(Replay(items[..n], rs[..n]), Step(items[n], rs[n]), SyncOf);
    }
  }

  lemma {:induction false} ReplayFailures(items: seq<Entry>, rs: seq<ApiResult>)
    requires |items| == |rs|
    ensures Project(Replay(items, rs), FailureOf) == Failures(items, rs)
  {
    if items != [] {
      var n := |items| - 1;
      ReplayFailures(items[..n], rs[..n]);
      StepProjections(items[n], rs[n]);
      ProjectConcat(Replay(items[..n], rs[..n]), Step(items[n], rs[n]), FailureOf);
    }
  }

  lemma {:induction false} ReplayNoDone(items: seq<Entry>, rs: seq<ApiResult>)
    requires |items| == |rs|
    ensures Project(Replay(items, rs), DoneOf) == []
  {
    if items != [] {
      var n := |items| - 1;
      ReplayNoDone(items[..n], rs[..n]);
      StepProjections(items[n], rs[n]);
      ProjectConcat(Replay(items[..n], rs[..n]), Step(items[n], rs[n]), DoneOf);
    }
  }

  /** onDone is called exactly once, at the end, with the returned summary. */
  lemma DoneOnce(items: seq<Entry>, rs: seq<ApiResult>, summary: Summary)
    requires |items| == |rs|
    ensures Project(Replay(items, rs) + [Done(summary)], DoneOf) == [summary]
  {
    ReplayProjections(items, rs);
    ProjectConcat(Replay(items, rs), [Done(summary)], DoneOf);
  }

  /** Each item ends as exactly one success or one failure; synced counts the successes. */
  lemma {:induction false} OutcomeCounts(items: seq<Entry>, rs: seq<ApiResult>)
    requires |items| == |rs|
    ensures |Successes(items, rs)| == SyncedCount(items, rs)
    ensures |Successes(items, rs)| + |Failures(items, rs)| == |items|
    ensures 0 <= SyncedCount(items, rs) <= |items|
  {
    if items != [] {
      OutcomeCounts(items[..|items| - 1], rs[..|rs| - 1]);
    }
  }

  /** An id is passed to removeItem exactly when some item with that id succeeded. */
  lemma {:induction false} SyncedIdsMeaning(items: seq<Entry>, rs: seq<ApiResult>, id: string)
    requires |items| == |rs|
    ensures id in SyncedIds(items, rs) <==>
            exists k :: 0 <= k < |items| && items[k].id == id && Succeeded(rs[k])
  {
    if items != [] {
      var n := |items| - 1;
      SyncedIdsMeaning(items[..n], rs[..n], id);
      if id in SyncedIds(items, rs) && id !in SyncedIds(items[..n], rs[..n]) {
        assert items[n].id == id && Succeeded(rs[n]);
      }
      if exists k :: 0 <= k < |items| && items[k].id == id && Succeeded(rs[k]) {
        var k :| 0 <= k < |items| && items[k].id == id && Succeeded(rs[k]);
        if k < n {
          assert items[..n][k].id == id && rs[..n][k] == rs[k];
        }
      }
    }
  }

  /**
   * With distinct ids (fresh ids at enqueue), a snapshot item is still queued
   * after the pass exactly when its call did not succeed.
   */
  lemma RemovedIffSucceeded(items: seq<Entry>, rs: seq<ApiResult>, k: nat)
    requires |items| == |rs| && k < |items|
    requires forall i, j :: 0 <= i < j < |items| ==> items[i].id != items[j].id
    ensures items[k] in Without(items, SyncedIds(items, rs)) <==> !Succeeded(rs[k])
  {
    WithoutMembership(items, SyncedIds(items, rs), items[k]);
    SyncedIdsMeaning(items, rs, items[k].id);
  }

  /** Removing the id of a successful item i takes the queue left by items[..i] to the one left by items[..i+1]. */
  lemma RemoveSynced(items: seq<Entry>, rs: seq<ApiResult>, i: nat)
    requires |items| == |rs| && i < |items| && Succeeded(rs[i])
    ensures Without(Without(items, SyncedIds(items[..i], rs[..i])), set x | x in [items[i].id])
            == Without(items, SyncedIds(items[..i + 1], rs[..i + 1]))
  {
    Advance(items, rs, i);
    assert (set x | x in [items[i].id]) == {items[i].id};
    WithoutTwice(items, SyncedIds(items[..i], rs[..i]), {items[i].id});
  }

  /** The server's answer to the k-th call, for every item of the snapshot. */
  function Responses(items: seq<Entry>, respond: (nat, Entry) -> ApiResult): (rs: seq<ApiResult>)
    ensures |rs| == |items|
    ensures forall k :: 0 <= k < |items| ==> rs[k] == respond(k, items[k])
  {
    seq(|items|, k requires 0 <= k < |items| => respond(k, items[k]))
  }

  /**
   * The sync loop. `respond(k, item)` is what apiFetch returns for the k-th
   * call of this pass, made for `item`.
   */
  method SyncPendingShortens(q: PendingQueue, respond: (nat, Entry) -> ApiResult)
    returns (summary: Summary, trace: seq<Event>)
    modifies q
    ensures var snap := old(q.ReadQueue());
            var rs := Responses(snap, respond);
            && summary == Summary(SyncedCount(snap, rs), |snap|)
            && trace == Replay(snap, rs) + [Done(summary)]
            && q.ReadQueue() == Without(snap, SyncedIds(snap, rs))
    ensures old(q.ReadQueue()) == [] ==> summary == Summary(0, 0) && trace == [Done(summary)]
  {
    var pending := q.PeekAll();
    if |pending| == 0 {
      summary := Summary(0, 0);
      trace := [Done(summary)];
      return;
    }
    ghost var rs := Responses(pending, respond);
    var synced := 0;
    trace := [];
    WithoutAbsent(pending, {});
    for i := 0 to |pending|
      invariant synced == SyncedCount(pending[..i], rs[..i])
      invariant trace == Replay(pending[..i], rs[..i])
      invariant q.ReadQueue() == Without(pending, SyncedIds(pending[..i], rs[..i]))
    {
      var item := pending[i];
      var r := respond(i, item);
      Advance(pending, rs, i);
      if Succeeded(r) {
        var _ := q.RemoveByIds([item.id]);
        RemoveSynced(pending, rs, i);
        synced := synced + 1;
      }
      // Attempted, then Removed and ItemSynced, or MarkedFailed with the reason
      trace := trace + Step(item, r);
    }
    assert pending[..|pending|] == pending && rs[..|rs|] == rs;
    summary := Summary(synced, |pending|);
    trace := trace + [Done(summary)];
  }
}
