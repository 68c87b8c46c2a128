/**
 * What the merge pass does to one tracked account, as a function of the
 * account's cached state and the reply that covers it: the freshness guard on
 * the slot, decoding, change detection and removal of closed accounts. The
 * fetcher's loop applies `Step` to each account of its snapshot in turn.
 */
module MergeSpec {
  import opened Wrappers

  /** An account public key: the registry's map key. */
  type Key = string

  /** The `data` pair of an account in a reply: the raw payload and its encoding. */
  datatype AccountData = AccountData(raw: string, encoding: string)

  /**
   * One `getMultipleAccounts` reply object: a `result` holding the slot of the
   * read and one element per requested key (`null` for an account that does
   * not exist), or an object without a `result` (a JSON-RPC error).
   */
  datatype Reply = Answer(contextSlot: int, value: seq<Option<AccountData>>) | Fault

  /** An opaque handle on an Anchor program object. */
  type ProgramId = nat
  /** An opaque handle on a caller-supplied `constructAccount` function. */
  type ConstructorId = nat

  /**
   * How an account's payload is decoded: through an Anchor program's account
   * coder under the account type name (`addProgram`), or by a caller-supplied
   * function (`addConstructAccount`).
   */
  datatype Binding =
    | ProgramBinding(accountKey: string, program: ProgramId)
    | ConstructBinding(construct: ConstructorId)

  /**
   * The external code the merge pass calls into, as functions: whether a
   * program declares an account type under a name (`program.account[name]`
   * is defined), a program's coder, a caller's `constructAccount`, and
   * `toUpperCase` on one character. A decoder that throws answers `Failure`
   * with the message it throws.
   */
  datatype Codec<V> = Codec(
    hasAccount: (ProgramId, string) -> bool,
    programDecode: (ProgramId, string, AccountData) -> Result<V, string>,
    construct: (ConstructorId, AccountData) -> Result<V, string>,
    upper: char -> string)

  /** What a `try` block of the merge pass can throw. */
  datatype Error =
    | NoResponse        // `responses[i]` is `undefined`
    | NoResult          // the reply has no `result`
    | NoAccountData     // `result.value[i]` is `undefined`
    | UnknownAccount    // `program.account[accountKey]` is `undefined`, so reading `.coder` throws
    | EmptyAccountKey   // `capitalize("")` reads `value[0]` of an empty string
    | Undecodable(message: string)

  /** A callback fired for an account: `onFetch(data)` or `onError(error)`. */
  datatype Notice<V> = OnFetch(value: V) | OnError(error: Error)

  /** The mutable part of a tracked account: `slot`, `raw` and `data`, each possibly `undefined`. */
  datatype EntryState<V> = EntryState(slot: Option<int>, raw: Option<string>, data: Option<V>)

  /** The effect of one merge step on one account. */
  datatype Visit<V> =
    | Removed                                          // deleted from the registry, fields untouched
    | Updated(after: EntryState<V>, notice: Option<Notice<V>>)

  /** `capitalize`: the first character upper-cased, the rest unchanged; throws on the empty string. */
  function Capitalize(s: string, upper: char -> string): (r: Result<string, Error>)
    ensures r.Failure? <==> s == []
    ensures r.Failure? ==> r.error == EmptyAccountKey
    ensures r.Success? ==> |r.value| == |upper(s[0])| + |s| - 1
    ensures r.Success? ==> r.value[..|upper(s[0])|] == upper(s[0]) && r.value[|upper(s[0])|..] == s[1..]
  {
    if s == [] then Failure(EmptyAccountKey) else Success(upper(s[0]) + s[1..])
  }

  /** A decoder's outcome as seen by the merge pass: its value, or what it threw. */
  function Decoded<V>(outcome: Result<V, string>): (r: Result<V, Error>)
    ensures r.Success? <==> outcome.Success?
    ensures r.Success? ==> r.value == outcome.value
    ensures r.Failure? ==> r.error == Undecodable(outcome.error)
  {
    match outcome
    case Success(v) => Success(v)
    case Failure(m) => Failure(Undecodable(m))
  }

  /**
   * `constructAccount`: decode `data` with the account's binding. For a
   * program, the callee `program.account[accountKey].coder.accounts.decode`
   * is evaluated before its argument `capitalize(accountKey)`, so an account
   * type the program does not declare throws before `capitalize` runs.
   */
  function ConstructAccount<V>(codec: Codec<V>, b: Binding, data: AccountData): (r: Result<V, Error>)
    ensures r.Failure? ==> r.error.UnknownAccount? || r.error.EmptyAccountKey? || r.error.Undecodable?
    // a caller-supplied function decides alone
    ensures b.ConstructBinding? ==> r == Decoded(codec.construct(b.construct, data))
    // a program decodes under the capitalised type name, once the type is known to it
    ensures b.ProgramBinding? && !codec.hasAccount(b.program, b.accountKey) ==> r == Failure(UnknownAccount)
    ensures b.ProgramBinding? && codec.hasAccount(b.program, b.accountKey) && b.accountKey == [] ==>
      r == Failure(EmptyAccountKey)
    ensures b.ProgramBinding? && codec.hasAccount(b.program, b.accountKey) && b.accountKey != [] ==>
      r == Decoded(codec.programDecode(b.program, Capitalize(b.accountKey, codec.upper).value, data))
  {
    match b
    case ProgramBinding(accountKey, program) => (
      if !codec.hasAccount(program, accountKey) then Failure(UnknownAccount)
      else
        match Capitalize(accountKey, codec.upper)
        case Failure(e) => Failure(e)
        case Success(typeName) => Decoded(codec.programDecode(program, typeName, data)))
    case ConstructBinding(construct) =>
      Decoded(codec.construct(construct, data))
  }

  /** The freshness guard: a reply's slot is accepted when none was seen yet or it is strictly newer. */
  predicate Accepts(seen: Option<int>, slot: int)
    ensures Accepts(seen, slot) ==> NotBefore(seen, Some(slot))
    ensures seen == Some(slot) ==> !Accepts(seen, slot)
  {
    seen.None? || slot > seen.value
  }

  /** The reply reports the account at `accIndex` as `null`: the account was closed. */
  predicate Closed(reply: Option<Reply>, accIndex: nat) {
    reply.Some? && reply.value.Answer? && accIndex < |reply.value.value| && reply.value.value[accIndex].None?
  }

  /** The slot never moves backwards: if one was seen, the new one is at least as large. */
  predicate NotBefore(seen: Option<int>, now: Option<int>) {
    seen.Some? ==> now.Some? && now.value >= seen.value
  }

  /**
   * One iteration of the merge loop for an account in state `s`, covered by
   * `reply` at position `accIndex`.
   */
  function Step<V>(s: EntryState<V>, b: Binding, reply: Option<Reply>, accIndex: nat, codec: Codec<V>): (v: Visit<V>)
    // `null` removes the account, and nothing else does
    ensures v.Removed? <==> Closed(reply, accIndex)
    // the slot never decreases, and changes only to an accepted reply slot
    ensures v.Updated? ==> NotBefore(s.slot, v.after.slot)
    ensures v.Updated? && v.after.slot != s.slot ==>
      reply.Some? && reply.value.Answer? && Accepts(s.slot, reply.value.contextSlot)
      && v.after.slot == Some(reply.value.contextSlot)
    // a stale or equal slot leaves the account as it was, silently
    ensures (reply.Some? && reply.value.Answer? && !Closed(reply, accIndex)
      && !Accepts(s.slot, reply.value.contextSlot)) ==> v == Updated(s, None)
    // `raw` and `data` change only together with an `onFetch`, to the new payload and its decoding
    ensures v.Updated? && !(v.notice.Some? && v.notice.value.OnFetch?) ==>
      v.after.raw == s.raw && v.after.data == s.data
    ensures v.Updated? && v.notice.Some? && v.notice.value.OnFetch? ==>
      && reply.Some? && reply.value.Answer? && accIndex < |reply.value.value|
      && reply.value.value[accIndex].Some?
      && var data := reply.value.value[accIndex].value;
      && s.raw != Some(data.raw) && v.after.raw == Some(data.raw)
      && ConstructAccount(codec, b, data) == Success(v.notice.value.value)
      && v.after.data == Some(v.notice.value.value)
    // an accepted payload that decodes fires `onFetch` exactly when it differs from the cached one
    ensures (reply.Some? && reply.value.Answer? && !Closed(reply, accIndex)
      && Accepts(s.slot, reply.value.contextSlot) && accIndex < |reply.value.value|
      && ConstructAccount(codec, b, reply.value.value[accIndex].value).Success?) ==>
      var data := reply.value.value[accIndex].value;
      var newSlot := s.(slot := Some(reply.value.contextSlot));
      v == if s.raw == Some(data.raw) then Updated(newSlot, None)
        else Updated(newSlot.(raw := Some(data.raw), data := Some(ConstructAccount(codec, b, data).value)),
                     Some(OnFetch(ConstructAccount(codec, b, data).value)))
    // anything thrown at an accepted slot goes to `onError`, after the slot was written
    ensures (reply.Some? && reply.value.Answer? && !Closed(reply, accIndex)
      && Accepts(s.slot, reply.value.contextSlot) && accIndex >= |reply.value.value|) ==>
      v == Updated(s.(slot := Some(reply.value.contextSlot)), Some(OnError(NoAccountData)))
    ensures (reply.Some? && reply.value.Answer? && !Closed(reply, accIndex)
      && Accepts(s.slot, reply.value.contextSlot) && accIndex < |reply.value.value|
      && ConstructAccount(codec, b, reply.value.value[accIndex].value).Failure?) ==>
      v == Updated(s.(slot := Some(reply.value.contextSlot)),
                   Some(OnError(ConstructAccount(codec, b, reply.value.value[accIndex].value).error)))
    // a missing reply or one without `result` goes to `onError`, touching nothing
    ensures reply.None? ==> v == Updated(s, Some(OnError(NoResponse)))
    ensures reply == Some(Fault) ==> v == Updated(s, Some(OnError(NoResult)))
  {
    match reply
    case None => Updated(s, Some(OnError(NoResponse)))
    case Some(Fault) => Updated(s, Some(OnError(NoResult)))
    case Some(Answer(slot, value)) =>
      if accIndex < |value| && value[accIndex].None? then Removed
      else if !Accepts(s.slot, slot) then Updated(s, None)
      else
        // the slot is written before anything below can throw
        var s1 := s.(slot := Some(slot));
        if accIndex >= |value| then Updated(s1, Some(OnError(NoAccountData)))
        else
          var data := value[accIndex].value;
          // decoded before the comparison, so an unchanged payload is decoded too
          match ConstructAccount(codec, b, data)
          case Failure(e) => Updated(s1, Some(OnError(e)))
          case Success(account) =>
            if s.raw != Some(data.raw) then Updated(s1.(raw := Some(data.raw), data := Some(account)), Some(OnFetch(account)))
            else Updated(s1, None)
  }

  /** The state an account is left in by a visit (a removed account keeps its fields). */
  function After<V>(v: Visit<V>, s: EntryState<V>): EntryState<V> {
    if v.Removed? then s else v.after
  }

  // ---------------------------------------------------------------------------
  // Several cycles in a row.

  /** The reply covering an account and its position in it, for one cycle. */
  datatype Round = Round(reply: Option<Reply>, accIndex: nat)

  /**
   * An account's state after a sequence of cycles, and the callbacks fired for
   * it; `None` once a cycle has removed it, after which it is never visited.
   */
  function Replay<V>(s: EntryState<V>, b: Binding, rounds: seq<Round>, codec: Codec<V>): (Option<EntryState<V>>, seq<Notice<V>>)
    decreases |rounds|
  {
    if rounds == [] then (Some(s), [])
    else
      var v := Step(s, b, rounds[0].reply, rounds[0].accIndex, codec);
      var here := if v.Updated? && v.notice.Some? then [v.notice.value] else [];
      if v.Removed? then (None, here)
      else
        var rest := Replay(v.after, b, rounds[1..], codec);
        (rest.0, here + rest.1)
  }

  /** Freshness monotonicity: whatever the order of the replies, the slot never decreases over any number of cycles. */
  lemma {:induction false} SlotNeverDecreases<V>(s: EntryState<V>, b: Binding, rounds: seq<Round>, codec: Codec<V>)
    ensures Replay(s, b, rounds, codec).0.Some? ==> NotBefore(s.slot, Replay(s, b, rounds, codec).0.value.slot)
    decreases |rounds|
  {
    if rounds != [] {
      var v := Step(s, b, rounds[0].reply, rounds[0].accIndex, codec);
      if v.Updated? {
        SlotNeverDecreases(v.after, b, rounds[1..], codec);
      }
    }
  }

  /** Once a slot was seen, `raw` is only replaced by a payload from a strictly newer slot. */
  lemma {:induction false} RawOnlyFromNewerSlots<V>(s: EntryState<V>, b: Binding, rounds: seq<Round>, codec: Codec<V>)
    ensures var r := Replay(s, b, rounds, codec);
      r.0.Some? && r.0.value.raw != s.raw && s.slot.Some? ==>
        r.0.value.slot.Some? && r.0.value.slot.value > s.slot.value
    decreases |rounds|
  {
    if rounds != [] {
      var v := Step(s, b, rounds[0].reply, rounds[0].accIndex, codec);
      if v.Updated? {
        RawOnlyFromNewerSlots(v.after, b, rounds[1..], codec);
        SlotNeverDecreases(v.after, b, rounds[1..], codec);
      }
    }
  }

  /**
   * An unchanged payload is not a change: when two cycles in a row report the
   * same payload for an account, at most the first fires `onFetch`.
   */
  lemma SamePayloadFetchesOnce<V>(s: EntryState<V>, b: Binding, first: Round, second: Round, data: AccountData, codec: Codec<V>)
    requires first.reply.Some? && first.reply.value.Answer? && first.accIndex < |first.reply.value.value|
    requires second.reply.Some? && second.reply.value.Answer? && second.accIndex < |second.reply.value.value|
    requires first.reply.value.value[first.accIndex] == Some(data)
    requires second.reply.value.value[second.accIndex] == Some(data)
    ensures var notices := Replay(s, b, [first, second], codec).1;
      !(|notices| == 2 && notices[0].OnFetch? && notices[1].OnFetch?)
  {
    var v := Step(s, b, first.reply, first.accIndex, codec);
    assert [first, second][1..] == [second];
    assert [second][1..] == [];
    if v.Updated? {
      var w := Step(v.after, b, second.reply, second.accIndex, codec);
      assert Replay(v.after, b, [second], codec).1 == if w.Updated? && w.notice.Some? then [w.notice.value] else [];
    }
  }

  /**
   * The slot is written before decoding: a payload that fails to decode at an
   * accepted slot reports the error, keeps `raw` and `data`, and still
   * consumes the slot, so the same reply delivered again is ignored silently.
   */
  lemma UndecodableConsumesSlot<V>(s: EntryState<V>, b: Binding, round: Round, codec: Codec<V>)
    requires round.reply.Some? && round.reply.value.Answer?
    requires Accepts(s.slot, round.reply.value.contextSlot)
    requires round.accIndex < |round.reply.value.value| && round.reply.value.value[round.accIndex].Some?
    requires ConstructAccount(codec, b, round.reply.value.value[round.accIndex].value).Failure?
    ensures var after := Replay(s, b, [round, round], codec);
      && after.0 == Some(s.(slot := Some(round.reply.value.contextSlot)))
      && after.0.value.raw == s.raw && after.0.value.data == s.data
      && after.1 == [OnError(ConstructAccount(codec, b, round.reply.value.value[round.accIndex].value).error)]
  {
    var s1 := s.(slot := Some(round.reply.value.contextSlot));
    assert [round, round][1..] == [round] && [round][1..] == [];
    assert Step(s1, b, round.reply, round.accIndex, codec) == Updated(s1, None);
    var none: seq<Notice<V>> := [];
    assert none + none == none;
    assert Replay(s1, b, [], codec) == (Some(s1), none);
    assert Replay(s1, b, [round], codec) == (Some(s1), none);
    assert [OnError(ConstructAccount(codec, b, round.reply.value.value[round.accIndex].value).error)] + none
      == [OnError(ConstructAccount(codec, b, round.reply.value.value[round.accIndex].value).error)];
  }

  /**
   * Four cycles for one account decoded by its raw payload: a first payload at
   * slot 10 fires `onFetch`; the same payload at slot 11 only advances the
   * slot; another payload at the older slot 9 is ignored; `null` removes it.
   */
  lemma FourCycles()
    ensures var codec := RawCodec();
      var b := ConstructBinding(0);
      var s0 := EntryState(None, None, None);
      var p1, p2 := AccountData("P1", "base64"), AccountData("P2", "base64");
      var r1 := Round(Some(Answer(10, [Some(p1)])), 0);
      var r2 := Round(Some(Answer(11, [Some(p1)])), 0);
      var r3 := Round(Some(Answer(9, [Some(p2)])), 0);
      var r4 := Round(Some(Answer(12, [None])), 0);
      var fetched := EntryState(Some(10), Some("P1"), Some("P1"));
      && Replay(s0, b, [r1], codec) == (Some(fetched), [OnFetch("P1")])
      && Replay(s0, b, [r1, r2], codec) == (Some(fetched.(slot := Some(11))), [OnFetch("P1")])
      && Replay(s0, b, [r1, r2, r3], codec) == (Some(fetched.(slot := Some(11))), [OnFetch("P1")])
      && Replay(s0, b, [r1, r2, r3, r4], codec) == (None, [OnFetch("P1")])
  {
    var codec := RawCodec();
    var b := ConstructBinding(0);
    var s0 := EntryState(None, None, None);
    var p1, p2 := AccountData("P1", "base64"), AccountData("P2", "base64");
    var r1 := Round(Some(Answer(10, [Some(p1)])), 0);
    var r2 := Round(Some(Answer(11, [Some(p1)])), 0);
    var r3 := Round(Some(Answer(9, [Some(p2)])), 0);
    var r4 := Round(Some(Answer(12, [None])), 0);
    var fetched := EntryState(Some(10), Some("P1"), Some("P1"));
    var advanced := fetched.(slot := Some(11));
    assert ConstructAccount(codec, b, p1) == Success("P1");
    assert Step(s0, b, r1.reply, 0, codec) == Updated(fetched, Some(OnFetch("P1")));
    assert Step(fetched, b, r2.reply, 0, codec) == Updated(advanced, None);
    assert Step(advanced, b, r3.reply, 0, codec) == Updated(advanced, None);
    assert Step(advanced, b, r4.reply, 0, codec) == Removed;
    // the replays of the suffixes, shortest first
    assert Replay(advanced, b, [r4], codec) == (None, []);
    assert Replay(advanced, b, [], codec) == (Some(advanced), []);
    assert [r3, r4][1..] == [r4] && [r3][1..] == [] && [r3][0] == r3;
    var noNotice: seq<Notice<string>> := [];
    assert noNotice + noNotice == noNotice;
    assert Replay(advanced, b, [r3], codec) == (Some(advanced), []);
    assert Replay(advanced, b, [r3, r4], codec) == (None, []);
    assert [r2, r3, r4][1..] == [r3, r4] && [r2, r3][1..] == [r3] && [r2][1..] == [];
    assert Replay(fetched, b, [], codec) == (Some(fetched), []);
    assert Replay(fetched, b, [r2], codec) == (Some(advanced), []);
    assert Replay(fetched, b, [r2, r3], codec) == (Some(advanced), []);
    assert Replay(fetched, b, [r2, r3, r4], codec) == (None, []);
    assert [r1, r2, r3, r4][1..] == [r2, r3, r4] && [r1, r2, r3][1..] == [r2, r3];
    assert [r1, r2][1..] == [r2] && [r1][1..] == [] && [r1][0] == r1;
    assert [OnFetch("P1")] + noNotice == [OnFetch("P1")];
    assert Replay(s0, b, [r1], codec) == (Some(fetched), [OnFetch("P1")]);
  }

  /** A codec whose decoding of a payload is its raw string. */
  function RawCodec(): Codec<string> {
    Codec((p: ProgramId, t: string) => true,
          (p: ProgramId, t: string, d: AccountData) => Success(d.raw),
          (c: ConstructorId, d: AccountData) => Success(d.raw),
          (ch: char) => [ch])
  }
}
