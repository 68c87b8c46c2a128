/**
 * How one polling cycle batches the tracked keys into remote calls and how the
 * replies are gathered back: keys are cut into groups of `MAX_KEYS` (one
 * `getMultipleAccounts` call each), groups into HTTP requests of
 * `GROUPS_PER_REQUEST` calls, and requests into waves of at most
 * `min(requestsPerSecond, 10)` requests; wave `k` is sent after `WaveDelay(k)`.
 */
module Schedule {
  import opened Wrappers
  import opened ArrayHelpers

  /** Keys per `getMultipleAccounts` call. */
  const MAX_KEYS: nat := 100
  /** Calls batched into one HTTP request. */
  const GROUPS_PER_REQUEST: nat := 10
  /** The ceiling on requests sent at once. */
  const MAX_CONCURRENT: nat := 10

  /** Requests per wave: the configured rate, capped at the concurrency ceiling. */
  function RequestsPerWave(rps: int): (n: nat)
    requires rps >= 1
    ensures 1 <= n <= MAX_CONCURRENT && n <= rps
    ensures rps <= MAX_CONCURRENT ==> n == rps
  {
    if rps > MAX_CONCURRENT then MAX_CONCURRENT else rps
  }

  /** The three-level chunking of the key list: waves of requests of calls of keys. */
  function Requests<K>(keys: seq<K>, rps: int): (waves: seq<seq<seq<seq<K>>>>)
    requires rps >= 1
    // nothing is sent when nothing is tracked, and at least one wave otherwise
    ensures waves == [] <==> keys == []
  {
    Chunk(Chunk(Chunk(keys, MAX_KEYS), GROUPS_PER_REQUEST), RequestsPerWave(rps))
  }

  /** Undoing the two outer levels gives back the calls; undoing the last gives back the keys. */
  lemma RequestsLossless<K>(keys: seq<K>, rps: int)
    requires rps >= 1
    ensures Concat(Concat(Requests(keys, rps))) == Chunk(keys, MAX_KEYS)
    ensures Concat(Chunk(keys, MAX_KEYS)) == keys
  {
    var calls := Chunk(keys, MAX_KEYS);
    ConcatChunk(Chunk(calls, GROUPS_PER_REQUEST), RequestsPerWave(rps));
    ConcatChunk(calls, GROUPS_PER_REQUEST);
    ConcatChunk(keys, MAX_KEYS);
  }

  /** No wave, request or call is empty or exceeds its bound. */
  lemma RequestsBounded<K>(keys: seq<K>, rps: int)
    requires rps >= 1
    ensures forall w :: 0 <= w < |Requests(keys, rps)| ==>
      0 < |Requests(keys, rps)[w]| <= RequestsPerWave(rps)
    ensures forall w, r :: 0 <= w < |Requests(keys, rps)| && 0 <= r < |Requests(keys, rps)[w]| ==>
      0 < |Requests(keys, rps)[w][r]| <= GROUPS_PER_REQUEST
    ensures forall g :: 0 <= g < |Chunk(keys, MAX_KEYS)| ==> 0 < |Chunk(keys, MAX_KEYS)[g]| <= MAX_KEYS
  {
    var calls := Chunk(keys, MAX_KEYS);
    var requests := Chunk(calls, GROUPS_PER_REQUEST);
    ChunkShape(keys, MAX_KEYS);
    ChunkShape(calls, GROUPS_PER_REQUEST);
    ChunkShape(requests, RequestsPerWave(rps));
    forall w, r | 0 <= w < |Requests(keys, rps)| && 0 <= r < |Requests(keys, rps)[w]|
      ensures 0 < |Requests(keys, rps)[w][r]| <= GROUPS_PER_REQUEST
    {
      ChunkMember(requests, RequestsPerWave(rps), w, r);
    }
  }

  /** Every element of a group of `Chunk` is an element of the chunked sequence. */
  lemma ChunkMember<T>(a: seq<T>, size: nat, i: nat, j: nat)
    requires size > 0 && i < |Chunk(a, size)| && j < |Chunk(a, size)[i]|
    ensures Chunk(a, size)[i][j] in a
  {
    var lo := Min(i * size, |a|);
    assert Chunk(a, size)[i][j] == a[lo + j];
  }

  // ---------------------------------------------------------------------------
  // Gathering the replies.

  function MapSeq<A, B>(f: A -> B, s: seq<A>): (r: seq<B>)
    ensures |r| == |s| && forall i :: 0 <= i < |s| ==> r[i] == f(s[i])
  {
    seq(|s|, i requires 0 <= i < |s| => f(s[i]))
  }

  /**
   * The replies of a cycle, arranged as its requests: each call is answered by
   * `answer`, and each request's reply lists its calls' answers in call order.
   */
  function Replies<K, R>(waves: seq<seq<seq<seq<K>>>>, answer: seq<K> -> R): seq<seq<seq<R>>> {
    MapSeq((wave: seq<seq<seq<K>>>) => MapSeq((request: seq<seq<K>>) => MapSeq(answer, request), wave), waves)
  }

  /**
   * The array the merge pass indexes: each wave flattens its requests' reply
   * arrays to depth `Infinity`, and the waves' results are flattened again.
   */
  function Collect<R>(replies: seq<seq<seq<R>>>): (collected: seq<Nested<R>>)
    // what the merge pass indexes holds reply objects only, no arrays
    ensures forall i :: 0 <= i < |collected| ==> collected[i].Item?
  {
    Flat(MapSeq((wave: seq<seq<R>>) => List(Flat(Lists(wave), Infinite)), replies), Infinite)
  }

  /** `responses[i]` as the merge pass reads it: a reply object, or `undefined`. */
  function Responses<R>(collected: seq<Nested<R>>): (r: seq<Option<R>>)
    ensures |r| == |collected|
  {
    MapSeq((n: Nested<R>) => if n.Item? then Some(n.value) else None, collected)
  }

  /** The collected replies are the per-call answers in call order, nothing else. */
  lemma {:induction false} CollectIsConcat<R>(replies: seq<seq<seq<R>>>)
    ensures Collect(replies) == Items(Concat(Concat(replies)))
  {
    var perWave := MapSeq((wave: seq<seq<R>>) => Concat(wave), replies);
    var lists := MapSeq((wave: seq<seq<R>>) => List(Flat(Lists(wave), Infinite)), replies);
    forall w | 0 <= w < |replies|
      ensures lists[w] == List(Items(perWave[w]))
    {
      FlatLists(replies[w], Infinite);
    }
    assert lists == Lists(perWave);
    FlatLists(perWave, Infinite);
    ConcatConcat(replies);
  }

  /** Flattening two levels at once equals flattening each inner level first. */
  lemma {:induction false} ConcatConcat<T>(x: seq<seq<seq<T>>>)
    ensures Concat(Concat(x)) == Concat(MapSeq((s: seq<seq<T>>) => Concat(s), x))
  {
    if x != [] {
      ConcatAppend(x[0], Concat(x[1..]));
      ConcatConcat(x[1..]);
      assert MapSeq((s: seq<seq<T>>) => Concat(s), x)[1..] == MapSeq((s: seq<seq<T>>) => Concat(s), x[1..]);
    }
  }

  /** Flattening commutes with answering element by element. */
  lemma {:induction false} ConcatMap<A, B>(f: A -> B, ss: seq<seq<A>>)
    ensures Concat(MapSeq((s: seq<A>) => MapSeq(f, s), ss)) == MapSeq(f, Concat(ss))
  {
    if ss != [] {
      ConcatMap(f, ss[1..]);
      assert MapSeq((s: seq<A>) => MapSeq(f, s), ss)[1..] == MapSeq((s: seq<A>) => MapSeq(f, s), ss[1..]);
    }
  }

  /**
   * The alignment the merge pass relies on: the flattened responses hold one
   * reply per `MAX_KEYS` call, in call order, and key `x` of the snapshot is
   * answered by reply `x / MAX_KEYS` at position `x % MAX_KEYS`.
   */
  lemma ResponseForKey<K, R>(keys: seq<K>, rps: int, answer: seq<K> -> R, x: nat)
    requires rps >= 1 && x < |keys|
    ensures var responses := Responses(Collect(Replies(Requests(keys, rps), answer)));
      var calls := Chunk(keys, MAX_KEYS);
      && |responses| == |calls|
      && x / MAX_KEYS < |calls|
      && responses[x / MAX_KEYS] == Some(answer(calls[x / MAX_KEYS]))
      && x % MAX_KEYS < |calls[x / MAX_KEYS]|
      && calls[x / MAX_KEYS][x % MAX_KEYS] == keys[x]
  {
    var waves := Requests(keys, rps);
    var replies := Replies(waves, answer);
    CollectIsConcat(replies);
    var perRequest := MapSeq((request: seq<seq<K>>) => MapSeq(answer, request), Concat(waves));
    ConcatMap((request: seq<seq<K>>) => MapSeq(answer, request), waves);
    assert Concat(replies) == perRequest;
    ConcatMap(answer, Concat(waves));
    RequestsLossless(keys, rps);
    assert Concat(Concat(replies)) == MapSeq(answer, Chunk(keys, MAX_KEYS));
    ChunkAt(keys, MAX_KEYS, x);
  }

  // ---------------------------------------------------------------------------
  // The delay formula.

  /**
   * The spacing between waves, in milliseconds: one second when the rate fits
   * within the concurrency ceiling, otherwise `1000 / (rps / 10)`.
   */
  function Interval(rps: int): (ms: real)
    requires rps >= 1
    ensures 0.0 < ms <= 1000.0
  {
    if rps > MAX_CONCURRENT then 1000.0 / (rps as real / 10.0) else 1000.0
  }

  /** The `setTimeout` delay of wave `k`. */
  function WaveDelay(k: nat, rps: int): (ms: real)
    requires rps >= 1
    ensures 0.0 <= ms <= k as real * 1000.0
    ensures rps <= MAX_CONCURRENT ==> ms == k as real * 1000.0
    ensures k == 0 ==> ms == 0.0
  {
    k as real * Interval(rps)
  }

  /**
   * On average a full wave every `Interval` milliseconds is exactly `rps`
   * requests per second, and waves are sent in order, one `Interval` apart.
   * This is an average only: above the ceiling a one-second window can hold
   * more than `rps` requests (with `rps = 15` the waves start at 0 and at
   * 666.7 ms, twenty requests within the first second).
   */
  lemma AverageRate(rps: int, k: nat)
    requires rps >= 1
    ensures RequestsPerWave(rps) as real * 1000.0 == rps as real * Interval(rps)
    ensures WaveDelay(k + 1, rps) == WaveDelay(k, rps) + Interval(rps)
    ensures 0.0 <= WaveDelay(k, rps) <= k as real * 1000.0
  {
    if rps > MAX_CONCURRENT {
      var r := rps as real;
      assert Interval(rps) == 10000.0 / r;
      assert r * (10000.0 / r) == 10000.0;
    }
  }
}
