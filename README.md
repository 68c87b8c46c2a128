# polling-account-fetcher, modelled in Dafny

`PollingAccountsFetcher` keeps a registry of Solana accounts, keyed by public key. On every polling cycle it:

1. snapshots the registry in insertion order;
2. cuts the keys into `getMultipleAccounts` calls of 100 keys, the calls into JSON-RPC batch requests of 10 calls, and the requests into waves of at most `min(requestsPerSecond, 10)` requests;
3. sends the waves one interval apart and flattens the replies into one array, one element per call;
4. merges that array back into the accounts, one account at a time.

For each account the merge does the following:

- It finds the reply covering the account at `floor(x / 100)` and the account's position in it at `x mod 100`.
- A `null` element means the account was closed, and it is deleted from the registry.
- A reply slot that is not strictly newer than the last one seen is ignored.
- Otherwise the slot is recorded and the payload is decoded, either by an Anchor program's coder under the capitalised account type name or by a caller-supplied function.
- `onFetch` fires only when the raw payload differs from the cached one.
- Anything that throws is reported to that account's `onError`, and the loop moves on.

The project is organised as follows:

- `array_helpers.dfy`: the exported `chunk` and `flat` helpers. JavaScript's nested arrays are modelled by `Nested`, and the `Infinity` depth by `Depth.Infinite`.
- `schedule.dfy`: the three-level batching, the gathering of the replies, and the delay formula.
- `transport.dfy`: the retry logic of `axiosPost`, as written and as intended (see Findings).
- `merge_spec.dfy`: one merge step on one account as a pure function `Step`, and properties over sequences of cycles (`Replay`).
- `fetcher.dfy`: the classes.
  - `Entry` is a tracked account; the merge updates its `slot`, `raw` and `data` in place.
  - `PollingAccountsFetcher` holds a `map` of entries and the map's insertion order as a `seq`. Its ghost `log` records every callback fired.
  - The merge loop is a method proved against `Step`.

External code is passed in as a `Codec` of functions:

- whether a program declares an account type under a name (`program.account[name]`);
- the Anchor coder;
- the caller's `constructAccount`;
- `toUpperCase` on one character.

A decoder that throws returns `Failure`. The RPC endpoint is passed as `answer`, a function from one call's keys to its reply object.

## Model

| member | source | states |
|---|---|---|
| ArrayHelpers.Chunk | src/index.ts:17-19 | `chunk` yields `ceil(|a| / size)` groups. |
| ArrayHelpers.ChunkShape | src/index.ts:17-19 | Every group is non-empty and at most `size` long. All groups but the last are exactly `size` long. The last holds the remainder. |
| ArrayHelpers.ChunkAt | src/index.ts:17-19 | Element `x` lies in group `x / size` at position `x % size`. |
| ArrayHelpers.ConcatChunk | src/index.ts:17-19 | Concatenating the groups of `chunk(a, size)` gives back `a`: nothing is lost or reordered. |
| ArrayHelpers.ConcatAppend | src/index.ts:21-23 | Flattening one level distributes over appending arrays of arrays. |
| ArrayHelpers.Flat | src/index.ts:21-23 | `flat` at depth `Infinity` leaves no nested array in its result. |
| ArrayHelpers.FlatItems | src/index.ts:21-23 | `flat` leaves an array of plain values unchanged, at any depth. |
| ArrayHelpers.FlatLists | src/index.ts:21-23 | At a positive depth, `flat` of an array of arrays of values is their concatenation. |
| ArrayHelpers.FlatChunk | src/index.ts:17-23 | `flat(chunk(a, size))` gives back `a`. |
| Schedule.RequestsPerWave | src/index.ts:121 | A wave holds between 1 and 10 requests, never more than `requestsPerSecond`. It is exactly `requestsPerSecond` when that is at most 10. |
| Schedule.Requests | src/index.ts:121 | The three-level chunking of line 121 yields no wave when no account is tracked, and at least one wave otherwise. |
| Schedule.RequestsLossless | src/index.ts:121 | Undoing the outer two chunkings gives back the 100-key calls, and undoing the last gives back the keys in order. |
| Schedule.RequestsBounded | src/index.ts:119-121 | Waves hold 1..`min(rps,10)` requests, requests 1..10 calls, calls 1..100 keys. |
| Schedule.Collect | src/index.ts:123-133 | The array the merge pass indexes holds reply objects only, with no nested arrays left. |
| Schedule.CollectIsConcat | src/index.ts:123-133 | Flattening each wave's replies to depth `Infinity`, then the waves again, yields every call's reply in call order. |
| Schedule.ConcatConcat | src/index.ts:123-133 | Flattening two levels at once equals flattening the inner level first. |
| Schedule.ConcatMap | src/index.ts:123-133 | Flattening commutes with answering calls one by one. |
| Schedule.ResponseForKey | src/index.ts:121-142 | There is one response per 100-key call. Snapshot key `x` is answered by `responses[x / 100]`, and sits at position `x % 100` of the call that produced it. |
| Schedule.Interval | src/index.ts:131 | The spacing between waves is positive and at most 1000 ms. |
| Schedule.WaveDelay | src/index.ts:131 | Wave `k` waits between 0 and `k` seconds. It waits exactly `k` seconds when `requestsPerSecond` is at most 10. The first wave leaves at once. |
| Schedule.AverageRate | src/index.ts:121-131 | On average, a full wave per interval is exactly `requestsPerSecond` requests per second. Wave `k+1` starts one interval after wave `k`. This is an average, not a bound on every one-second window. |
| Transport.PostAsWritten | src/index.ts:91-115 | As written, the promise resolves iff the attempt that created it succeeds, and then with that attempt's reply. It never reports giving up. |
| Transport.Post | src/index.ts:91-115 | With retries settling the original promise, every request settles. |
| Transport.PostFirstSuccess | src/index.ts:104-113 | The corrected request gives up iff all six attempts fail. Otherwise it resolves with the first successful reply. |
| Transport.RetryIsLost | src/index.ts:104-113 | A failed first post followed by a successful retry stays pending as written, but resolves when corrected. |
| MergeSpec.Capitalize | src/index.ts:73-75 | The result is the first character upper-cased, followed by the rest unchanged. It throws exactly on the empty string. |
| MergeSpec.ConstructAccount | src/index.ts:77-89 | A constructor binding yields the caller function's result, or its throw. A program binding whose account type the program does not declare throws on the `.coder` read, before `capitalize` runs. Otherwise the program's coder decodes under the capitalised type name (an empty declared name throws from `capitalize`). |
| MergeSpec.Accepts | src/index.ts:149 | An accepted slot is never older than the last one seen, and a reply at the same slot is rejected. |
| MergeSpec.Step | src/index.ts:138-170 | `null` removes the account, and nothing else does. The slot never decreases, and changes only to an accepted, strictly newer reply slot. A stale reply changes nothing. `raw`/`data` change only together with `onFetch`, to the new payload and its decoding. An accepted, decodable payload fires `onFetch` iff it differs from the cached raw. At an accepted slot, a missing account element or a decoder throw goes to `onError` after the slot has been written, with `raw`/`data` kept. A missing reply or a reply without `result` goes to `onError` and changes nothing. |
| MergeSpec.SlotNeverDecreases | src/index.ts:149-150 | Over any sequence of cycles, the slot of a surviving account never decreases. |
| MergeSpec.RawOnlyFromNewerSlots | src/index.ts:149-157 | Once a slot has been seen, `raw` is replaced only by a payload read at a strictly newer slot. |
| MergeSpec.SamePayloadFetchesOnce | src/index.ts:153-158 | Two cycles reporting the same payload never both fire `onFetch`. |
| MergeSpec.UndecodableConsumesSlot | src/index.ts:149-153 | A payload that fails to decode at an accepted slot fires `onError` and keeps `raw` and `data`. It still advances the slot, so the same reply delivered again is ignored silently. |
| MergeSpec.FourCycles | src/index.ts:147-164 | Worked scenario, four cycles in a row: a new payload fires `onFetch`; the same payload at a newer slot only moves the slot; an older slot is ignored; `null` deletes the account. |
| Fetcher.Entry.constructor | src/index.ts:46-56 | A new account has no slot and no raw payload, and holds the caller's optional `data`. |
| Fetcher.Without | src/index.ts:163 | Deleting keys from an insertion-ordered map keeps the other keys in order and keeps them distinct. |
| Fetcher.WithoutTwice | src/index.ts:163 | Deleting keys in two passes is the same as deleting them at once. |
| Fetcher.MergedWithOwnReply | src/index.ts:121-153 | In a cycle, snapshot element `x` is merged by `Step` with the reply to the very call that carried its key, at that key's position in the call. |
| Fetcher.RemovedKeysAre | src/index.ts:160-164 | A pass deletes exactly the keys whose reply element was `null`. |
| Fetcher.EventsAre | src/index.ts:146-169 | A pass fires a callback for a key exactly when that key's own visit fired it, so an error is confined to the account that raised it. |
| Fetcher.InGroupIndex | src/index.ts:140-145 | Subtracting 100 until the value drops below 100 gives `x % 100`, and `x = floor(x/100)*100 + accIndex`. |
| Fetcher.PollingAccountsFetcher.constructor | src/index.ts:31-44 | A negative `frequency` becomes 1000 and other values are kept. A `requestsPerSecond` below 1 becomes 5 and other values are kept. The registry starts empty. |
| Fetcher.PollingAccountsFetcher.Track | src/index.ts:46-56 | Inserting under a key already tracked changes nothing (idempotent add). A new key gets a fresh account appended to the insertion order. |
| Fetcher.PollingAccountsFetcher.AddProgram | src/index.ts:46-50 | Same as `Track`, with the account decoded by the program's coder under `accountKey`. |
| Fetcher.PollingAccountsFetcher.AddConstructAccount | src/index.ts:52-56 | Same as `Track`, with the account decoded by the caller's function. |
| Fetcher.PollingAccountsFetcher.Snapshot | src/index.ts:118 | The snapshot lists the tracked accounts in insertion order, each exactly once. |
| Fetcher.PollingAccountsFetcher.MergeEntry | src/index.ts:139-169 | One loop iteration applies `Step` to its account. It deletes the key iff the element was `null`, and logs the callback fired, if any. |
| Fetcher.PollingAccountsFetcher.UpdateEntry | src/index.ts:147-159 | Freshness guard, slot write, decode, then raw comparison, exactly as `Step` describes for a non-null element. |
| Fetcher.PollingAccountsFetcher.Merge | src/index.ts:138-170 | Every snapshot element is visited in order, whatever earlier elements threw, and ends in its `Step` state. The registry and its order lose exactly the closed accounts. The callbacks fired are the visits' own, in snapshot order. |
| Fetcher.PollingAccountsFetcher.Fetch | src/index.ts:117-171 | One polling cycle: the keys are batched, the replies gathered, and each account of the pre-cycle snapshot merged with its reply, as `Merge` states. |

## Left out

- `start` and `stop` (the `setInterval` timer), and the resulting overlap of cycles when one cycle outlasts `frequency`, are not modelled.
- `setTimeout` and `Promise.all` are left out. Waves are modelled by their delays (`Schedule.WaveDelay`), not by real time or interleaving. Replies are taken to arrive in full before the merge, as the code awaits them.
- The HTTP call, `process.env.RPC_URL` and the JSON-RPC envelope are left out. The endpoint is the function `answer`.
  - Each batch reply is assumed to list its calls in request order, as the code assumes.
  - A batch answered by one error object instead of an array is not modelled.
- Fetch: models a cycle in which every request resolves with its reply array. As written, that is a cycle in which every first post succeeds; in the corrected retry, a cycle in which no request gives up. Two cases are not modelled:
  - A request that never settles, as written, stalls the cycle before its merge loop (see Findings). Nothing models that stall.
  - A request that gives up in the corrected version has no defined reply. Resolving it with `undefined` would put one element where up to ten replies were expected in the flattened responses, and so misalign every later key.
- Chunk: requires a positive size. The exported `chunk` throws a `RangeError` for size 0 (`new Array(NaN)` or `new Array(Infinity)`), and that throw is not modelled. The fetcher only chunks by 100, 10 and a wave size of at least 1.
- Console output (`console.warn`, `console.error`) is not modelled.
- PollingAccountsFetcher.constructor: parameters are integers. An omitted (`undefined`) or non-integer argument is not modelled. In JavaScript such an argument fails both comparisons and is stored as given.
- Callbacks (`onFetch`, `onError`) are recorded in the ghost `log` and assumed not to throw. An `onError` that throws would escape `fetch`.
- Anchor's account coder, `Buffer.from` and the payload encodings are opaque functions in `Codec`. Only their success or failure matters to the merge.
- MergeSpec.ConstructAccount: `program.account[accountKey]` is modelled by the predicate `Codec.hasAccount`; Anchor's own lookup rules are not. An account registered with neither a program nor a constructor (which makes `constructAccount` return `undefined`) cannot be built through `addProgram` or `addConstructAccount`, so it is not modelled.
- MergeSpec.Capitalize: `toUpperCase` is modelled per character by `Codec.upper`. Unicode case mapping is not modelled.
- MergeSpec.Step: a reply whose `context.slot` is missing, or whose account element lacks `data`, is not modelled. Slots are integers.

## Findings

| source | as written | input that shows it | evidently intended | confidence | as-written member | corrected member |
|---|---|---|---|---|---|---|
| src/index.ts:104-113 | On a failed post, `axiosPost` calls itself with `retry + 1` but discards the promise that call returns, so the original promise is never resolved. | The first post fails and the first retry succeeds: the request's promise stays pending, and `fetch` never reaches its merge loop. | The retry's outcome settles the original promise, and after the fifth failed retry the request is given up. | not executed | Transport.PostAsWritten, Transport.RetryIsLost | Transport.Post, Transport.PostFirstSuccess |
