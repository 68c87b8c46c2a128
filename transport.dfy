/**
 * The retry logic of `axiosPost`, reduced to which attempt's reply settles the
 * request's promise. The network call itself is not modelled: `attempts[i]` is
 * what the `i`-th post of the same request returned (`None` when it failed).
 */
module Transport {
  import opened Wrappers

  /** Retries after the first attempt: `retry` runs from 0 to 5, six posts in all. */
  const MAX_RETRIES: nat := 5

  /** How the promise returned for one request ends up. */
  datatype Settled<R> = Resolved(reply: R) | GaveUp | Pending

  /**
   * `axiosPost` as written: on failure it calls itself with `retry + 1` but
   * drops the promise that call returns, so only the attempt that created the
   * promise can resolve it; a failed first attempt leaves it pending forever.
   */
  function PostAsWritten<R>(attempts: seq<Option<R>>, retry: nat): (s: Settled<R>)
    requires retry <= MAX_RETRIES < |attempts|
    ensures s.Resolved? <==> attempts[retry].Some?
    ensures s.Resolved? ==> s.reply == attempts[retry].value
    ensures s != GaveUp
  {
    if attempts[retry].Some? then Resolved(attempts[retry].value)
    else Pending
  }

  /**
   * `axiosPost` as evidently intended: the retry's outcome settles the
   * original promise, and after the last retry fails the request is given up.
   */
  function Post<R>(attempts: seq<Option<R>>, retry: nat): (s: Settled<R>)
    requires retry <= MAX_RETRIES < |attempts|
    ensures s != Pending
    decreases MAX_RETRIES - retry
  {
    if attempts[retry].Some? then Resolved(attempts[retry].value)
    else if retry < MAX_RETRIES then Post(attempts, retry + 1)
    else GaveUp
  }

  /** The intended retry resolves with the first successful attempt, and gives up only when all fail. */
  lemma {:induction false} PostFirstSuccess<R>(attempts: seq<Option<R>>, retry: nat)
    requires retry <= MAX_RETRIES < |attempts|
    ensures Post(attempts, retry) == GaveUp <==> forall i :: retry <= i <= MAX_RETRIES ==> attempts[i].None?
    ensures Post(attempts, retry).Resolved? ==>
      exists i :: (retry <= i <= MAX_RETRIES && attempts[i] == Some(Post(attempts, retry).reply)
                   && forall j :: retry <= j < i ==> attempts[j].None?)
    decreases MAX_RETRIES - retry
  {
    if attempts[retry].None? && retry < MAX_RETRIES {
      PostFirstSuccess(attempts, retry + 1);
      if Post(attempts, retry).Resolved? {
        var i :| retry + 1 <= i <= MAX_RETRIES && attempts[i] == Some(Post(attempts, retry).reply)
          && forall j :: retry + 1 <= j < i ==> attempts[j].None?;
        assert forall j :: retry <= j < i ==> attempts[j].None?;
      }
    }
  }

  /**
   * The discrepancy: a request whose first post fails and whose first retry
   * succeeds stays pending as written, so the wave holding it, and with it the
   * whole polling cycle, never reaches the merge pass.
   */
  lemma RetryIsLost<R>(reply: R)
    ensures var attempts := [None, Some(reply), None, None, None, None];
      PostAsWritten(attempts, 0) == Pending && Post(attempts, 0) == Resolved(reply)
  {
  }
}
