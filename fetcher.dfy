/**
 * `PollingAccountsFetcher`: a registry of tracked accounts in insertion order,
 * and the polling cycle that snapshots it, batches its keys, and merges the
 * replies back into the accounts one by one.
 */
module Fetcher {
  import opened Wrappers
  import opened ArrayHelpers
  import opened Schedule
  import opened MergeSpec

  /** A tracked account (`AccountToPoll`); the merge pass updates its `slot`, `raw` and `data` in place. */
  class Entry<V> {
    const accountPublicKey: Key
    const binding: Binding
    var slot: Option<int>
    var raw: Option<string>
    var data: Option<V>

    /** A new account: never fetched, holding the caller's optional initial `data`. */
    constructor (accountPublicKey: Key, binding: Binding, data: Option<V>)
      ensures this.accountPublicKey == accountPublicKey && this.binding == binding
      ensures State() == EntryState(None, None, data)
    {
      this.accountPublicKey := accountPublicKey;
      this.binding := binding;
      this.slot := None;
      this.raw := None;
      this.data := data;
    }

    function State(): EntryState<V>
      reads this
    {
      EntryState(slot, raw, data)
    }
  }

  /** A callback fired during a merge pass, tagged with the account it was fired for. */
  datatype Event<V> = Event(key: Key, notice: Notice<V>)

  predicate Distinct(keys: seq<Key>) {
    forall i, j :: 0 <= i < j < |keys| ==> keys[i] != keys[j]
  }

  /** `keys` in order, without those in `drop`: the insertion order of a map after deleting `drop`. */
  function Without(keys: seq<Key>, drop: set<Key>): (r: seq<Key>)
    ensures forall k :: k in r <==> k in keys && k !in drop
    ensures Distinct(keys) ==> Distinct(r)
  {
    if keys == [] then []
    else if keys[0] in drop then Without(keys[1..], drop)
    else [keys[0]] + Without(keys[1..], drop)
  }

  /** Deleting in two steps is deleting once. */
  lemma {:induction false} WithoutTwice(keys: seq<Key>, a: set<Key>, b: set<Key>)
    ensures Without(Without(keys, a), b) == Without(keys, a + b)
  {
    if keys != [] {
      WithoutTwice(keys[1..], a, b);
    }
  }

  lemma {:induction false} WithoutNothing(keys: seq<Key>)
    ensures Without(keys, {}) == keys
  {
    if keys != [] {
      WithoutNothing(keys[1..]);
    }
  }

  function KeysOf<V>(entries: seq<Entry<V>>): (keys: seq<Key>)
    ensures |keys| == |entries| && forall i :: 0 <= i < |entries| ==> keys[i] == entries[i].accountPublicKey
  {
    seq(|entries|, i requires 0 <= i < |entries| => entries[i].accountPublicKey)
  }

  function StatesOf<V>(entries: seq<Entry<V>>): (states: seq<EntryState<V>>)
    reads set e | e in entries
    ensures |states| == |entries| && forall i :: 0 <= i < |entries| ==> states[i] == entries[i].State()
  {
    seq(|entries|, i reads set e | e in entries requires 0 <= i < |entries| => entries[i].State())
  }

  /** `responses[floor(x / MAX_KEYS)]`, which is `undefined` past the end. */
  function GroupFor(responses: seq<Option<Reply>>, x: nat): (r: Option<Reply>)
    ensures x / MAX_KEYS < |responses| ==> r == responses[x / MAX_KEYS]
    ensures x / MAX_KEYS >= |responses| ==> r == None
  {
    if x / MAX_KEYS < |responses| then responses[x / MAX_KEYS] else None
  }

  /** What the merge pass does to each snapshot element, from its state when the pass starts. */
  function Visits<V>(snapshot: seq<Entry<V>>, before: seq<EntryState<V>>, responses: seq<Option<Reply>>, codec: Codec<V>): (visits: seq<Visit<V>>)
    requires |before| == |snapshot|
    ensures |visits| == |snapshot|
    ensures forall x :: 0 <= x < |snapshot| ==>
      visits[x] == Step(before[x], snapshot[x].binding, GroupFor(responses, x), x % MAX_KEYS, codec)
  {
    seq(|snapshot|, x requires 0 <= x < |snapshot| =>
      Step(before[x], snapshot[x].binding, GroupFor(responses, x), x % MAX_KEYS, codec))
  }

  /**
   * The alignment a polling cycle relies on, stated on the merge itself:
   * snapshot element `x` is merged with the reply to the very call that
   * carried its key, at its key's position in that call.
   */
  lemma MergedWithOwnReply<V>(snapshot: seq<Entry<V>>, before: seq<EntryState<V>>, rps: int,
                              answer: seq<Key> -> Reply, codec: Codec<V>, x: nat)
    requires |before| == |snapshot| && rps >= 1 && x < |snapshot|
    ensures var keys := KeysOf(snapshot);
      var responses := Responses(Collect(Replies(Requests(keys, rps), answer)));
      var call := Chunk(keys, MAX_KEYS)[x / MAX_KEYS];
      && x % MAX_KEYS < |call| && call[x % MAX_KEYS] == snapshot[x].accountPublicKey
      && Visits(snapshot, before, responses, codec)[x]
         == Step(before[x], snapshot[x].binding, Some(answer(call)), x % MAX_KEYS, codec)
  {
    var keys := KeysOf(snapshot);
    ResponseForKey(keys, rps, answer, x);
  }

  /** The callbacks a sequence of visits fires, in snapshot order. */
  function Events<V>(keys: seq<Key>, visits: seq<Visit<V>>): seq<Event<V>>
    requires |keys| == |visits|
  {
    if visits == [] then []
    else
      var n := |visits| - 1;
      Events(keys[..n], visits[..n]) + Fired(keys[n], visits[n])
  }

  /** Extending a pass by one element extends its callbacks by that element's. */
  lemma EventsSnoc<V>(keys: seq<Key>, visits: seq<Visit<V>>, x: nat)
    requires |keys| == |visits| && x < |visits|
    ensures Events(keys[..x + 1], visits[..x + 1]) == Events(keys[..x], visits[..x]) + Fired(keys[x], visits[x])
  {
    assert keys[..x + 1][..x] == keys[..x] && visits[..x + 1][..x] == visits[..x];
  }

  /** Extending a pass by one element extends the deleted keys by that element's, if it was closed. */
  lemma RemovedKeysSnoc<V>(keys: seq<Key>, visits: seq<Visit<V>>, x: nat)
    requires |keys| == |visits| && x < |visits|
    ensures RemovedKeys(keys[..x + 1], visits[..x + 1])
      == RemovedKeys(keys[..x], visits[..x]) + if visits[x].Removed? then {keys[x]} else {}
  {
    assert keys[..x + 1][..x] == keys[..x] && visits[..x + 1][..x] == visits[..x];
  }

  lemma AppendAssoc<T>(a: seq<T>, b: seq<T>, c: seq<T>)
    ensures (a + b) + c == a + (b + c)
  {
  }

  lemma MapMinusTwice<K, T>(m: map<K, T>, a: set<K>, b: set<K>)
    ensures (m - a) - b == m - (a + b)
  {
  }

  /** The callback one visit fires, if any. */
  function Fired<V>(key: Key, v: Visit<V>): seq<Event<V>> {
    if v.Updated? && v.notice.Some? then [Event(key, v.notice.value)] else []
  }

  /** The keys a sequence of visits deletes from the registry. */
  function RemovedKeys<V>(keys: seq<Key>, visits: seq<Visit<V>>): set<Key>
    requires |keys| == |visits|
  {
    if visits == [] then {}
    else
      var n := |visits| - 1;
      RemovedKeys(keys[..n], visits[..n]) + if visits[n].Removed? then {keys[n]} else {}
  }

  /** The keys a pass deletes are exactly those of the elements whose reply reported `null`. */
  lemma {:induction false} RemovedKeysAre<V>(keys: seq<Key>, visits: seq<Visit<V>>, k: Key)
    requires |keys| == |visits|
    ensures k in RemovedKeys(keys, visits) <==> exists x :: 0 <= x < |visits| && visits[x].Removed? && keys[x] == k
  {
    if visits != [] {
      var n := |visits| - 1;
      RemovedKeysAre(keys[..n], visits[..n], k);
      if k in RemovedKeys(keys[..n], visits[..n]) {
        var x :| 0 <= x < n && visits[..n][x].Removed? && keys[..n][x] == k;
        assert visits[x].Removed? && keys[x] == k;
      }
    }
  }

  /**
   * Callbacks stay with their account: a pass fires a callback for a key
   * exactly when that key's own visit fired it, so an error in one account is
   * reported to that account's `onError` and to no other.
   */
  lemma {:induction false} EventsAre<V>(keys: seq<Key>, visits: seq<Visit<V>>, e: Event<V>)
    requires |keys| == |visits|
    ensures e in Events(keys, visits) <==>
      exists x :: 0 <= x < |visits| && keys[x] == e.key && visits[x].Updated? && visits[x].notice == Some(e.notice)
  {
    if visits != [] {
      var n := |visits| - 1;
      EventsAre(keys[..n], visits[..n], e);
      if e in Events(keys[..n], visits[..n]) {
        var x :| 0 <= x < n && keys[..n][x] == e.key && visits[..n][x].Updated? && visits[..n][x].notice == Some(e.notice);
        assert keys[x] == e.key && visits[x] == visits[..n][x];
      }
    }
  }

  /**
   * The in-group index of snapshot element `x`, found by subtracting
   * `MAX_KEYS` until it falls below it.
   */
  method InGroupIndex(x: nat) returns (accIndex: nat)
    ensures accIndex < MAX_KEYS && accIndex == x % MAX_KEYS
    ensures x == (x / MAX_KEYS) * MAX_KEYS + accIndex
  {
    accIndex := x;
    while accIndex >= MAX_KEYS
      invariant accIndex % MAX_KEYS == x % MAX_KEYS
      invariant accIndex <= x && (x - accIndex) % MAX_KEYS == 0
    {
      accIndex := accIndex - MAX_KEYS;
    }
  }

  class PollingAccountsFetcher<V> {
    /** The tracked accounts by public key. */
    var accounts: map<Key, Entry<V>>
    /** The keys of `accounts` in insertion order, the order in which the map iterates. */
    var order: seq<Key>
    /** Milliseconds between polling cycles. */
    var frequency: int
    /** The configured ceiling on HTTP requests per second. */
    var requestsPerSecond: int
    /** Every `onFetch` and `onError` call made so far, in order. */
    ghost var log: seq<Event<V>>

    ghost predicate Valid()
      reads this
    {
      && frequency >= 0
      && requestsPerSecond >= 1
      && Distinct(order)
      && (forall k :: k in order <==> k in accounts)
      && (forall k :: k in accounts ==> accounts[k].accountPublicKey == k)
    }

    /**
     * A negative `frequency` is replaced by 1000 ms and a `requestsPerSecond`
     * below one by 5; other values are kept. The registry starts empty.
     */
    constructor (frequency: int, requestsPerSecond: int)
      ensures Valid()
      ensures this.frequency == if frequency < 0 then 1000 else frequency
      ensures this.requestsPerSecond == if requestsPerSecond < 1 then 5 else requestsPerSecond
      ensures accounts == map[] && order == [] && log == []
    {
      if frequency < 0 {
        this.frequency := 1000;
      } else {
        this.frequency := frequency;
      }
      if requestsPerSecond < 1 {
        this.requestsPerSecond := 5;
      } else {
        this.requestsPerSecond := requestsPerSecond;
      }
      accounts := map[];
      order := [];
      log := [];
    }

    /** Inserts a new account under `accountPublicKey` unless one is already tracked there. */
    method Track(accountPublicKey: Key, binding: Binding, data: Option<V>)
      requires Valid()
      modifies this
      ensures Valid()
      ensures frequency == old(frequency) && requestsPerSecond == old(requestsPerSecond) && log == old(log)
      ensures old(accountPublicKey in accounts) ==> accounts == old(accounts) && order == old(order)
      ensures old(accountPublicKey !in accounts) ==>
        && accountPublicKey in accounts
        && accounts == old(accounts)[accountPublicKey := accounts[accountPublicKey]]
        && order == old(order) + [accountPublicKey]
        && fresh(accounts[accountPublicKey])
        && accounts[accountPublicKey].binding == binding
        && accounts[accountPublicKey].State() == EntryState(None, None, data)
    {
      if accountPublicKey !in accounts {
        var entry := new Entry(accountPublicKey, binding, data);
        accounts := accounts[accountPublicKey := entry];
        order := order + [accountPublicKey];
      }
    }

    /** `addProgram`: track an account decoded by a program's coder under `accountKey`. */
    method AddProgram(accountKey: string, accountPublicKey: Key, program: ProgramId, data: Option<V>)
      requires Valid()
      modifies this
      ensures Valid()
      ensures frequency == old(frequency) && requestsPerSecond == old(requestsPerSecond) && log == old(log)
      ensures old(accountPublicKey in accounts) ==> accounts == old(accounts) && order == old(order)
      ensures old(accountPublicKey !in accounts) ==>
        && accountPublicKey in accounts
        && accounts == old(accounts)[accountPublicKey := accounts[accountPublicKey]]
        && order == old(order) + [accountPublicKey]
        && fresh(accounts[accountPublicKey])
        && accounts[accountPublicKey].binding == ProgramBinding(accountKey, program)
        && accounts[accountPublicKey].State() == EntryState(None, None, data)
    {
      Track(accountPublicKey, ProgramBinding(accountKey, program), data);
    }

    /** `addConstructAccount`: track an account decoded by a caller-supplied function. */
    method AddConstructAccount(accountPublicKey: Key, construct: ConstructorId, data: Option<V>)
      requires Valid()
      modifies this
      ensures Valid()
      ensures frequency == old(frequency) && requestsPerSecond == old(requestsPerSecond) && log == old(log)
      ensures old(accountPublicKey in accounts) ==> accounts == old(accounts) && order == old(order)
      ensures old(accountPublicKey !in accounts) ==>
        && accountPublicKey in accounts
        && accounts == old(accounts)[accountPublicKey := accounts[accountPublicKey]]
        && order == old(order) + [accountPublicKey]
        && fresh(accounts[accountPublicKey])
        && accounts[accountPublicKey].binding == ConstructBinding(construct)
        && accounts[accountPublicKey].State() == EntryState(None, None, data)
    {
      Track(accountPublicKey, ConstructBinding(construct), data);
    }

    /** `[...accounts.values()]`: the tracked accounts in insertion order, each once. */
    function Snapshot(): (entries: seq<Entry<V>>)
      reads this
      requires Valid()
      ensures KeysOf(entries) == order
      ensures Distinct(KeysOf(entries))
      ensures forall i :: 0 <= i < |entries| ==> order[i] in accounts && entries[i] == accounts[order[i]]
    {
      seq(|order|, i requires 0 <= i < |order| && order[i] in accounts reads this => accounts[order[i]])
    }

    /**
     * One iteration of the merge loop of `fetch`: the `try` block for the
     * snapshot element `entry` at flat index `x`.
     */
    method MergeEntry(entry: Entry<V>, x: nat, responses: seq<Option<Reply>>, codec: Codec<V>)
      requires Valid()
      modifies this, entry
      ensures Valid()
      ensures frequency == old(frequency) && requestsPerSecond == old(requestsPerSecond)
      ensures var v := Step(old(entry.State()), entry.binding, GroupFor(responses, x), x % MAX_KEYS, codec);
        var removed := if v.Removed? then {entry.accountPublicKey} else {};
        && entry.State() == After(v, old(entry.State()))
        && accounts == old(accounts) - removed
        && order == Without(old(order), removed)
        && log == old(log) + Fired(entry.accountPublicKey, v)
    {
      var key := entry.accountPublicKey;
      var responseIndex := x / MAX_KEYS;
      var response := if responseIndex < |responses| then responses[responseIndex] else None;
      var accIndex := InGroupIndex(x);
      WithoutNothing(order);
      match response {
        case None =>
          log := log + [Event(key, OnError(NoResponse))];
        case Some(Fault) =>
          log := log + [Event(key, OnError(NoResult))];
        case Some(Answer(slot, value)) =>
          if accIndex < |value| && value[accIndex].None? {
            // the account was closed
            accounts := accounts - {key};
            order := Without(order, {key});
          } else {
            UpdateEntry(entry, slot, value, accIndex, codec);
          }
      }
    }

    /**
     * The part of the `try` block after the `null` check: the freshness guard,
     * decoding and change detection.
     */
    method UpdateEntry(entry: Entry<V>, slot: int, value: seq<Option<AccountData>>, accIndex: nat, codec: Codec<V>)
      requires !(accIndex < |value| && value[accIndex].None?)
      modifies this`log, entry
      ensures var v := Step(old(entry.State()), entry.binding, Some(Answer(slot, value)), accIndex, codec);
        && v.Updated?
        && entry.State() == v.after
        && log == old(log) + Fired(entry.accountPublicKey, v)
    {
      var key := entry.accountPublicKey;
      if entry.slot.None? || slot > entry.slot.value {
        entry.slot := Some(slot);
        if accIndex >= |value| {
          log := log + [Event(key, OnError(NoAccountData))];
        } else {
          var data := value[accIndex].value;
          var account := ConstructAccount(codec, entry.binding, data);
          match account {
            case Failure(e) =>
              log := log + [Event(key, OnError(e))];
            case Success(v) =>
              if entry.raw != Some(data.raw) {
                entry.data := Some(v);
                entry.raw := Some(data.raw);
                log := log + [Event(key, OnFetch(v))];
              }
          }
        }
      }
    }

    /**
     * The merge loop of `fetch`: visits every element of `snapshot`, in order,
     * with the reply covering its position, and applies `Step` to it; deletes
     * the keys of closed accounts, and logs the callbacks fired.
     */
    method Merge(snapshot: seq<Entry<V>>, responses: seq<Option<Reply>>, codec: Codec<V>)
      requires Valid()
      requires Distinct(KeysOf(snapshot))
      modifies this, set e | e in snapshot
      ensures Valid()
      ensures frequency == old(frequency) && requestsPerSecond == old(requestsPerSecond)
      ensures var visits := Visits(snapshot, old(StatesOf(snapshot)), responses, codec);
        && (forall x :: 0 <= x < |snapshot| ==> snapshot[x].State() == After(visits[x], old(snapshot[x].State())))
        && accounts == old(accounts) - RemovedKeys(KeysOf(snapshot), visits)
        && order == Without(old(order), RemovedKeys(KeysOf(snapshot), visits))
        && log == old(log) + Events(KeysOf(snapshot), visits)
    {
      ghost var before := StatesOf(snapshot);
      ghost var visits := Visits(snapshot, before, responses, codec);
      ghost var keys := KeysOf(snapshot);
      WithoutNothing(order);
      ghost var removed: set<Key> := {};
      for x := 0 to |snapshot|
        invariant Valid()
        invariant frequency == old(frequency) && requestsPerSecond == old(requestsPerSecond)
        invariant forall i :: x <= i < |snapshot| ==> snapshot[i].State() == before[i]
        invariant forall i :: 0 <= i < x ==> snapshot[i].State() == After(visits[i], before[i])
        invariant log == old(log) + Events(keys[..x], visits[..x])
        invariant removed == RemovedKeys(keys[..x], visits[..x])
        invariant accounts == old(accounts) - removed
        invariant order == Without(old(order), removed)
      {
        ghost var v := visits[x];
        assert v == Step(snapshot[x].State(), snapshot[x].binding, GroupFor(responses, x), x % MAX_KEYS, codec);
        assert forall i :: 0 <= i < |snapshot| && i != x ==> snapshot[i] != snapshot[x] by {
          assert forall i :: 0 <= i < |snapshot| && i != x ==> keys[i] != keys[x];
        }
        ghost var logBefore := log;
        MergeEntry(snapshot[x], x, responses, codec);
        assert snapshot[x].State() == After(v, before[x]);
        assert log == logBefore + Fired(keys[x], v);
        EventsSnoc(keys, visits, x);
        AppendAssoc(old(log), Events(keys[..x], visits[..x]), Fired(keys[x], v));
        RemovedKeysSnoc(keys, visits, x);
        ghost var now := if v.Removed? then {keys[x]} else {};
        MapMinusTwice(old(accounts), removed, now);
        WithoutTwice(old(order), removed, now);
        removed := removed + now;
      }
      assert keys[..|snapshot|] == keys && visits[..|snapshot|] == visits;
      assert before == old(StatesOf(snapshot));
      assert visits == Visits(snapshot, old(StatesOf(snapshot)), responses, codec);
      assert forall i :: 0 <= i < |snapshot| ==> before[i] == old(snapshot[i].State());
    }

    /**
     * `fetch`: snapshot the registry, batch its keys into waves of requests,
     * gather the replies (`answer` stands for the remote endpoint, answering
     * one `getMultipleAccounts` call), and merge them into the snapshot.
     */
    method Fetch(answer: seq<Key> -> Reply, codec: Codec<V>)
      requires Valid()
      modifies this, accounts.Values
      ensures Valid()
      ensures frequency == old(frequency) && requestsPerSecond == old(requestsPerSecond)
      ensures var snapshot := old(Snapshot());
        var responses := Responses(Collect(Replies(Requests(old(order), requestsPerSecond), answer)));
        var visits := Visits(snapshot, old(StatesOf(snapshot)), responses, codec);
        && (forall x :: 0 <= x < |snapshot| ==> snapshot[x].State() == After(visits[x], old(snapshot[x].State())))
        && accounts == old(accounts) - RemovedKeys(old(order), visits)
        && order == Without(old(order), RemovedKeys(old(order), visits))
        && log == old(log) + Events(old(order), visits)
    {
      var accountValues := Snapshot();
      var keys := KeysOf(accountValues);
      var waves := Requests(keys, requestsPerSecond);
      var responses := Responses(Collect(Replies(waves, answer)));
      Merge(accountValues, responses, codec);
    }
  }
}
