/** The retry loop around every SQL transaction. What each attempt meets (the work's own outcome, the commit's outcome,
    an interrupted back-off) is an input; the loop decides what is kept and reported. */
module WithTx {
  import opened Model

  datatype RetryClass = NotRetryable | RetryImmediate | RetryLimited

  datatype TxError = TxError(class_: RetryClass, text: string)

  /** One attempt: the transaction cannot begin; the work fails after some writes; the commit fails; or it commits.
      `interrupted`: the context ends before the back-off does. */
  datatype Attempt<W, N> =
    | BeginFails(e: TxError)
    | WorkFails(e: TxError, writes: W, interrupted: bool)
    | CommitFails(e: TxError, writes: W, notifs: seq<N>, interrupted: bool)
    | Commits(writes: W, notifs: seq<N>)

  /** retryTx: a retryable error, attempts left for its class, and an undisturbed back-off. */
  predicate RetryTx(max: int, e: TxError, attempt: nat, interrupted: bool) {
    !e.class_.NotRetryable? && attempt + 1 < (if e.class_.RetryLimited? then 2 else max) && !interrupted
  }

  /** The attempt fails in a way the loop retries. */
  predicate Retried<W, N>(max: int, a: Attempt<W, N>, attempt: nat) {
    (a.WorkFails? || a.CommitFails?) && RetryTx(max, a.e, attempt, a.interrupted)
  }

  /** A lock-wait failure on the only attempt: its class allows a second one that the loop does not have. */
  predicate SlowOnlyAttempt<W, N>(max: int, a: Attempt<W, N>) {
    max == 1 && (a.WorkFails? || a.CommitFails?) && a.e.class_.RetryLimited? && !a.interrupted
  }

  class Runner<W, N> {
    /** The write sets that are in the database, in commit order. */
    var committed: seq<W>
    const maxTxRetry: int

    /** Zero or negative options take the default of five. */
    constructor (maxRetry: int)
      ensures maxTxRetry >= 1 && maxTxRetry == (if maxRetry > 0 then maxRetry else 5) && committed == []
    {
      committed := [];
      maxTxRetry := if maxRetry <= 0 then 5 else maxRetry;
    }

    /** tries: attempts made; fell: the loop ran out instead of returning from its body. */
    method WithTx(plan: nat -> Attempt<W, N>)
      returns (notifs: seq<N>, err: Option<TxError>, ghost tries: nat, ghost fell: bool)
      requires maxTxRetry >= 1
      modifies this`committed
      ensures 1 <= tries <= maxTxRetry
      // every attempt but the last was retried, a lock-wait failure only if it came first
      ensures forall j :: 0 <= j < tries - 1 ==> Retried(maxTxRetry, plan(j), j)
      ensures forall j :: 0 <= j < tries - 1 && !plan(j).BeginFails? && !plan(j).Commits? ==>
              plan(j).e.class_.RetryLimited? ==> j == 0
      // no error exactly when the last attempt committed: its writes and nobody else's, its notifications and
      // nobody else's
      ensures err.None? <==> plan(tries - 1).Commits?
      ensures err.None? ==> committed == old(committed) + [plan(tries - 1).writes] && notifs == plan(tries - 1).notifs
      ensures err.Some? ==> committed == old(committed) && notifs == [] && err.value == plan(tries - 1).e
      // another attempt follows only a failure of the work or the commit that the back-off outlived: a deadlock while
      // attempts are left, or a lock wait on the first
      ensures forall j :: 0 <= j < tries - 1 ==>
                (plan(j).WorkFails? || plan(j).CommitFails?) && !plan(j).interrupted
                && if plan(j).e.class_.RetryLimited? then j == 0
                   else plan(j).e.class_.RetryImmediate? && j + 1 < maxTxRetry
      // and follows every such failure, except past the end of the loop
      ensures var last := plan(tries - 1);
              last.Commits? || last.BeginFails? || last.interrupted || last.e.class_.NotRetryable?
              || tries == maxTxRetry || (last.e.class_.RetryLimited? && tries >= 2)
      // giving up early is always justified
      ensures err.Some? && tries < maxTxRetry ==> !Retried(maxTxRetry, plan(tries - 1), tries - 1)
      // the return after the loop is reached in one case only
      ensures fell <==> SlowOnlyAttempt(maxTxRetry, plan(0))
    {
      var lastErr: Option<TxError> := None;
      tries, fell := 0, false;
      for attempt := 0 to maxTxRetry
        invariant tries == attempt && committed == old(committed) && !fell
        invariant forall j :: 0 <= j < attempt ==> Retried(maxTxRetry, plan(j), j)
        invariant attempt > 0 ==> lastErr == Some(plan(attempt - 1).e)
      {
        tries := tries + 1;
        var a := plan(attempt);
        if a.BeginFails? {
          return [], Some(a.e), tries, false;
        }
        var open := a.writes;
        if a.WorkFails? {
          if RetryTx(maxTxRetry, a.e, attempt, a.interrupted) {
            lastErr := Some(a.e);
            continue;
          }
          return [], Some(a.e), tries, false;
        }
        if a.CommitFails? {
          if RetryTx(maxTxRetry, a.e, attempt, a.interrupted) {
            lastErr := Some(a.e);
            continue;
          }
          return [], Some(a.e), tries, false;
        }
        committed := committed + [open];
        return a.notifs, None, tries, false;
      }
      assert Retried(maxTxRetry, plan(maxTxRetry - 1), maxTxRetry - 1);
      return [], lastErr, tries, true;
    }
  }

  /** The fall-through is real: with a limit of one, a lock-wait timeout is "retried" by leaving the loop. */
  lemma FallThroughReachable()
    ensures SlowOnlyAttempt<int, int>(1, WorkFails(TxError(RetryLimited, "lock wait timeout"), 0, false))
  {}

  /** With a limit of two or more no failure on the last attempt is retried. */
  lemma NeverPastTheLimit<W, N>(max: int, a: Attempt<W, N>)
    requires max >= 2
    ensures !Retried(max, a, max - 1)
  {}
}
