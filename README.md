# ShortUrl link bookkeeping, modelled in Dafny

This project models the stateful core of the ShortUrl application. It covers both sides of the system.

- **Client.** The offline queue of shorten requests kept in the browser's localStorage (`offlineQueue.js`). The loop that replays that queue when the browser is back online (`syncQueue.js`). The rule by which the Home page's submit handler decides between queueing a request, showing an error and showing a short code (`Home.jsx`).
- **Server.** The three route handlers of `server.js`: `POST /api/shorten`, `GET /api/stats/:code` and `GET /:code`. They run against the in-memory Redis double of the backend tests (`FakeRedis`).

Files and modules:

- `wrappers.dfy` (`Wrappers`): `Option`.
- `offline_queue.dfy` (`OfflineQueue`): the queue entry and the localStorage slot. The class `PendingQueue` holds the slot and its methods read, change and write it back. The filter `Without` carries its lemmas.
- `api.dfy` (`Api`): the result of `apiFetch`, as `NetworkError | Response(status, data) | Throws(message)`. `ok` is derived from the status (200..299), as the Fetch standard defines it.
- `sync_queue.dfy` (`SyncQueue`): the loop `SyncPendingShortens` as a method. It is proved against the reference function `Replay`, which lists the calls, queue changes and callbacks of a pass. The lemmas say what that trace means.
- `js_values.dfy` (`JsValues`): the JavaScript semantics the store relies on. This covers truthiness, `parseInt(s, 10)`, `String(n)` and the round trip between them (ECMAScript 2023, sections 19.2.5 and 6.1.6.1.20).
- `redis_double.dfy` (`RedisDouble`): class `FakeRedis` with its `store`, `sets` and `lists` maps. `storeOrder` keeps the insertion order that `Map.keys()` follows, and each set is a sequence in insertion order.
- `link_server.dfy` (`LinkServer`): the handlers as methods on a `FakeRedis`. Each is proved against a function on the store's contents. The link invariant `Consistent` relates the `url:`, `short:` and `stats:` keys.
- `home.dfy` (`Home`): `RouteOf`, the decision rule of `handleSubmit`. Class `HomeForm` holds the page state that `handleSubmit` writes.

Some operations depend on the network, the clock or foreign libraries. Their results are parameters:

- `respond(k, item)` is the server's answer to the k-th call of a sync pass.
- `fetched` is the answer `handleSubmit` gets.
- `id` and `createdAt` stand for `crypto.randomUUID()` and `new Date()`.
- `isUrl` stands for `validator.isURL`.
- `code` stands for `nanoid(6)`.

Behaviour worth noting:

- **Sync loop.** It does not stop at a network error or a 5xx response. It calls `markFailed` and goes on with the next entry. It never removes an entry whose call failed, whatever the status.
- **Sync result.** It returns `{synced, total}`.
- **Shorten handler.** It has no owners, no soft delete and no collision check on the generated code.

The Redis double stores the visit counter as the text that `String(v)` produces. After one redirect, the stats handler therefore reports visits as the string `"1"` (`ShortenRedirectStats`).

## Model

| member | source | states |
|---|---|---|
| `OfflineQueue.PendingQueue.ReadQueue` | ShortUrlProject/frontend/src/lib/offlineQueue.js:3-9 | a missing key or unparsable text reads as the empty queue; stored entries are read as written |
| `OfflineQueue.PendingQueue.WriteQueue` | ShortUrlProject/frontend/src/lib/offlineQueue.js:11-13 | after writing `arr`, the next read returns exactly `arr` |
| `OfflineQueue.PendingQueue.EnqueueShorten` | ShortUrlProject/frontend/src/lib/offlineQueue.js:15-24 | the queue becomes the old queue plus one entry `{id, longUrl, createdAt}` at the end; the returned value is the new length, the old one plus 1 |
| `OfflineQueue.PendingQueue.CountPending` | ShortUrlProject/frontend/src/lib/offlineQueue.js:26-28 | returns the stored queue's length |
| `OfflineQueue.PendingQueue.PeekAll` | ShortUrlProject/frontend/src/lib/offlineQueue.js:30-32 | returns the stored entries, oldest first |
| `OfflineQueue.PendingQueue.RemoveByIds` | ShortUrlProject/frontend/src/lib/offlineQueue.js:34-39 | the queue becomes `Without(old queue, set of ids)`; returns the remaining length, never more than before |
| `OfflineQueue.EnqueueThenCount` | ShortUrlProject/frontend/src/lib/offlineQueue.js:15-28 | after an enqueue, countPending is the previous count plus 1 |
| `OfflineQueue.WithoutMembership` | ShortUrlProject/frontend/src/lib/offlineQueue.js:34-38 | an entry survives removeByIds iff it was queued and its id is not among the ids |
| `OfflineQueue.WithoutConcat` | ShortUrlProject/frontend/src/lib/offlineQueue.js:35-36 | filtering distributes over concatenation, so survivors keep their relative order |
| `OfflineQueue.WithoutAbsent` | ShortUrlProject/frontend/src/lib/offlineQueue.js:34-38 | removing an empty list, or ids no entry carries, leaves the queue unchanged |
| `OfflineQueue.WithoutTwice` | ShortUrlProject/frontend/src/lib/offlineQueue.js:35-36 | removing ids `a` and then ids `b` equals removing `a` and `b` at once |
| `OfflineQueue.WithoutIdempotent` | ShortUrlProject/frontend/src/lib/offlineQueue.js:35-36 | applying removeByIds twice with the same ids equals applying it once |
| `OfflineQueue.EnqueueThenRemove` | ShortUrlProject/frontend/src/lib/offlineQueue.js:15-38 | with an id no queued entry has, enqueue followed by removeByIds([id]) restores the previous queue |
| `SyncQueue.SyncPendingShortens` | ShortUrlProject/frontend/src/lib/syncQueue.js:5-44 | total is the snapshot's length; synced is the number of successful calls; the trace is the replay of the snapshot in order, then one onDone with the returned summary; the queue loses exactly the ids of the successful items; an empty queue gives `{0,0}`, one onDone and no call |
| `SyncQueue.StepProjections` | ShortUrlProject/frontend/src/lib/syncQueue.js:20-40 | one iteration makes one call for its item; on success it removes the item and fires onItemSynced with the local item and the server data; otherwise it calls markFailed once with the item's id and the reason |
| `SyncQueue.ReplayProjections` | ShortUrlProject/frontend/src/lib/syncQueue.js:14-40 | every snapshot item is attempted exactly once, in snapshot order, and a failure does not end the loop; onItemSynced fires for exactly the successful items and markFailed for exactly the others, both in order; the loop never calls onDone |
| `SyncQueue.DoneOnce` | ShortUrlProject/frontend/src/lib/syncQueue.js:42-43 | onDone is called exactly once, with the value that is returned |
| `SyncQueue.OutcomeCounts` | ShortUrlProject/frontend/src/lib/syncQueue.js:12-43 | synced equals the number of onItemSynced calls; successes plus failures equal total; 0 <= synced <= total |
| `SyncQueue.SyncedIdsMeaning` | ShortUrlProject/frontend/src/lib/syncQueue.js:27-34 | an id is removed iff some snapshot item with that id got an ok response |
| `SyncQueue.RemovedIffSucceeded` | ShortUrlProject/frontend/src/lib/syncQueue.js:21-34 | with distinct ids, a snapshot item is gone after the pass iff its call succeeded; a network error, non-ok response or exception leaves it queued |
| `JsValues.ParseDecimalRoundTrip` | ShortUrlProject/backend/tests/backend.test.js:47-48 | `parseInt(String(n), 10) == n` for every integer n |
| `JsValues.NaNStays` | ShortUrlProject/backend/tests/backend.test.js:47-48 | a counter that once read as NaN is written as "NaN" and reads as NaN again |
| `JsValues.ParseSkipsSpace` | ShortUrlProject/backend/tests/backend.test.js:47 | parseInt ignores leading white space |
| `RedisDouble.FakeRedis.Get` | ShortUrlProject/backend/tests/backend.test.js:33-35 | returns the stored value, or null iff the key is absent |
| `RedisDouble.FakeRedis.Set` | ShortUrlProject/backend/tests/backend.test.js:36-39 | `store[key] := value`, every other key unchanged, sets and lists untouched; a new key goes last in key order; replies "OK" |
| `RedisDouble.FakeRedis.Del` | ShortUrlProject/backend/tests/backend.test.js:40-45 | removes the key from store, sets and lists; replies 1 iff the key was in store |
| `RedisDouble.FakeRedis.Incr` | ShortUrlProject/backend/tests/backend.test.js:46-50 | returns parseInt of the current value (or "0" when it is missing or falsy) plus 1, and stores its text; the key order gains the key only if it was new; sets and lists are unchanged |
| `RedisDouble.IncrCounts` | ShortUrlProject/backend/tests/backend.test.js:46-50 | a missing or falsy counter reads as 0 and incr gives 1; from the number n, or from the text an earlier incr wrote for n, incr gives n + 1 |
| `RedisDouble.IncrNaNSticks` | ShortUrlProject/backend/tests/backend.test.js:46-50 | a counter whose text is "NaN" gives NaN on incr and is written back as "NaN" |
| `RedisDouble.IncrSkipsSpace` | ShortUrlProject/backend/tests/backend.test.js:46-50 | leading white space in a non-empty counter text does not change what incr computes |
| `RedisDouble.FakeRedis.Sadd` | ShortUrlProject/backend/tests/backend.test.js:51-54 | the set under key gains the value if it was not a member; the set is created if missing; always replies 1 |
| `RedisDouble.FakeRedis.Srem` | ShortUrlProject/backend/tests/backend.test.js:55-59 | the value is no longer a member; replies 1 iff it was one |
| `RedisDouble.FakeRedis.Smembers` | ShortUrlProject/backend/tests/backend.test.js:60-62 | returns the members in insertion order, without repeats; an empty set is created for a new key |
| `RedisDouble.FakeRedis.Keys` | ShortUrlProject/backend/tests/backend.test.js:63-68 | for "short:*", exactly the store keys starting with "short:", in insertion order; for any other pattern, every store key |
| `RedisDouble.WithPrefixNoDup` | ShortUrlProject/backend/tests/backend.test.js:65 | filtering the key list by prefix yields no repeated key |
| `RedisDouble.FakeRedis.Lpush` | ShortUrlProject/backend/tests/backend.test.js:69-73 | the value goes to the front of the list; replies with the new length, the old one plus 1 |
| `RedisDouble.FakeRedis.Lrange` | ShortUrlProject/backend/tests/backend.test.js:74-78 | returns `Range(list, start, stop)`; an empty list is created for a new key |
| `RedisDouble.Range` | ShortUrlProject/backend/tests/backend.test.js:74-78 | a stop of -1 returns the list from start to the end; otherwise both bounds are inclusive |
| `LinkServer.Shorten` | ShortUrlProject/backend/server.js:27-50 | the reply and the new store are those of `ShortenSpec`, computed through the double's get and set; the key order is unchanged on the 400 and existing-URL paths, and on the create path gains whichever of `short:code`, `url:longUrl`, `stats:code` were new, in that order; sets and lists untouched |
| `LinkServer.GetStats` | ShortUrlProject/backend/server.js:57-65 | read-only; 404 iff `short:code` is absent or falsy; otherwise replies with the stored long URL and the visits, which default to 0 |
| `LinkServer.Redirect` | ShortUrlProject/backend/server.js:68-78 | the reply and the new store are those of `RedirectSpec`, computed through the double's get and incr; the key order gains `stats:code` only when a known code had no counter yet, and is unchanged on 404; sets and lists untouched |
| `LinkServer.ShortenOutcomes` | ShortUrlProject/backend/server.js:31-50 | an invalid URL gets 400 and the store is unchanged; a known URL gets its stored code with "Deja exista" and nothing is written; a new URL creates `short:code`, `url:longUrl` and `stats:code = 0` and changes no other key, after which `short[url[longUrl]] == longUrl` |
| `LinkServer.ShortenIdempotent` | ShortUrlProject/backend/server.js:37-47 | shortening the same valid URL twice returns the same code, and the second call writes nothing |
| `LinkServer.ShortenKeepsConsistent` | ShortUrlProject/backend/server.js:43-48 | with a code not yet in use, shortening preserves the link invariant |
| `LinkServer.OneLinkConsistent` | ShortUrlProject/backend/server.js:42-47 | a store holding only the three keys one shorten writes satisfies the link invariant |
| `LinkServer.CollisionGeneral` | ShortUrlProject/backend/server.js:42-48 | whenever `url:u` names a code and a different, not yet shortened URL is given that same code, the new store breaks the link invariant; the handler does not check for this |
| `LinkServer.CollisionBreaksConsistency` | ShortUrlProject/backend/server.js:42-48 | an example of that collision: from the consistent one-link store for `abc123` and `http://a.ro`, shortening `http://b.ro` with `abc123` leaves `url:http://a.ro` naming `abc123` while `short:abc123` now holds `http://b.ro` |
| `LinkServer.RedirectCounts` | ShortUrlProject/backend/server.js:70-77 | a known code redirects to its stored URL and raises `stats:code` by exactly one, from a missing counter, the number 0 written at creation, or an earlier incr's text; nothing else changes; an unknown code gets 404 and nothing changes |
| `LinkServer.RedirectKeepsConsistent` | ShortUrlProject/backend/server.js:72-74 | counting a visit preserves the link invariant |
| `LinkServer.ShortenRedirectStats` | ShortUrlProject/backend/tests/backend.test.js:184-203 | shorten a new URL, follow its code once: the redirect goes to the URL and stats reports it with visits "1" |
| `Home.RouteOf` | ShortUrlProject/frontend/src/components/Home.jsx:26-62 | the request is queued iff offline, a network error or a status of 500 or more; an error is shown iff the response is non-ok with a status below 500, and it is never empty; a code is shown iff the response is ok with a body; the shown code and the reactivated flag come from the body; the info message is empty unless `existing`, and with `existing` it is the body's `msg` or "Link existent", never empty; every queued route carries a non-empty info message |
| `Home.HomeForm.HandleSubmit` | ShortUrlProject/frontend/src/components/Home.jsx:22-63 | error, info and shortCode are cleared first; the queue gains exactly one entry iff the route is Enqueue and is unchanged otherwise; the API is called iff online; the dashboard is bumped on enqueue and on success; a navigation is scheduled iff the body says reactivated |

## Left out

- Persistence is one localStorage slot (`Slot`). JSON.stringify and JSON.parse are identity on entry lists. Stored JSON that parses to something other than an entry array is not modelled. For such text `enqueueShorten` (`q.push`) and `removeByIds` (`.filter`) throw, `peekAll` returns the parsed value as it is, and `countPending` returns its `length` property (undefined for a number or an object, the character count for a string, a throw for `null`). An array of non-entries is not modelled either. `enqueueShorten`, `countPending` and `peekAll` accept such an array, and `removeByIds` throws when an element is `null` (it reads `x.id`).
- `listPending`, `removeItem` and `markFailed` are imported by `syncQueue.js` but not defined in `offlineQueue.js`. The loop uses `PeekAll` and `RemoveByIds([id])`. `markFailed` is a trace event that leaves the queue unchanged. Its retry bookkeeping (attempts, last error) is not modelled because no implementation exists.
- SyncQueue.SyncPendingShortens: `Throws` is an exception raised by the call itself. An exception thrown by `onItemSynced` after the entry was removed and counted is not modelled.
- Callbacks of the sync loop are optional in the source. The trace records every delivery as if both were supplied. `App.jsx` passes only `onDone`, and it reads a `syncedAny` field that the summary does not have.
- `apiFetch` (api.js) is not modelled beyond its result shape. Real HTTP, headers and the token are left out.
- Asynchrony is modelled as sequential execution. `setTimeout` before navigating is counted as one scheduled navigation. `setLoading` is the field `loading`.
- The 500 reply from the shorten handler's catch block, express middleware, CORS and `app.listen` are left out.
- `validator.isURL` and `nanoid(6)` are parameters. The handler's missing collision check is exhibited by `CollisionGeneral` and its instance `CollisionBreaksConsistency`, not prevented.
- JavaScript numbers are unbounded integers here. Floating-point precision and the exponent notation `String` uses from 1e21 upward are not modelled.
- FakeRedis keeps only the values the server writes: strings and integer numbers. Set members and list elements are strings.
- Home.jsx rendering, `handleCopy`, the QR code and every other component are not part of this model. The auth, register, login and `/me` tests of `backend.test.js` target routes that `server.js` does not have, so they are not part of this model either.
