/** Safety of the SQL backends over every history: cancellation with its exact exception, fencing, claims, chains. */
module SqlSafety {
  import opened Model
  import opened Cascade
  import CascadeLoop
  import opened Spec
  import opened Wiring
  import opened Graph
  import opened Invariants
  import opened Reachable
  import opened Runs
  import opened SqlProtocol
  import opened SqlCommits
  import opened SqlHistory
  import opened SqlRuns

  /** The reference step behind a commit. */
  lemma CommitStep(c: Config, dbs: seq<Db>, acts: seq<Action>, n: nat) returns (s: State, s': State, reply: Reply)
    requires IsHistory(c, dbs, acts) && CommitAt(dbs, acts, n)
    ensures n + 1 < |dbs| && s.recs == dbs[n].rows && s'.recs == dbs[n + 1].rows
    ensures Inv(s) && Step(c, s, OpAt(dbs, acts, n), s', reply)
  {
    hide Next, Traces, Steps, Serial, Step, Inv, OpOf;
    var run, pos := HistorySteps(c, dbs, acts, n);
    TracesEnd(dbs, acts, n, run, pos);
    HistorySerial(c, dbs, acts, n);
    s := run.states[|run.ops|];
    s', reply := CommitIsStep(c, s, dbs[n].txs[acts[n].i], dbs[n + 1].rows);
  }

  /** Between commits no row moves. */
  lemma Unmoved(c: Config, dbs: seq<Db>, acts: seq<Action>, n: nat)
    requires IsHistory(c, dbs, acts) && n < |acts| && !CommitAt(dbs, acts, n)
    ensures dbs[n + 1].rows == dbs[n].rows
  {
    hide Next, Serial;
    HistorySerial(c, dbs, acts, n);
  }

  // ---------------------------------------------------------------------------------------------
  // Cancellation
  // ---------------------------------------------------------------------------------------------

  /** A reaped row that carried the mark: the cancel stands exactly when pass 0 took it or the leases lost end the task
      anyway. */
  lemma ReapCancel(c: Config, pass: nat, r: Rec, r': Rec, now: int)
    requires ReapsRow(c, pass, r, r', now) && r.cancelRequested
    ensures CancelStands(r') <==> pass == 0 || r.task.leaseLost + 1 >= c.leaseLostMax
  {}

  /** The commit requeues x, or is a reap whose second select met the mark of x below the cap on lost leases. */
  ghost predicate LosesCancel(c: Config, rows: Recs, tx: Tx, x: Id) {
    (tx.prog.Written? && tx.prog.op.OpRequeue? && tx.prog.id == x)
    || (tx.prog.Sweeping? && x in rows && x in Overlooks(rows, tx.stages, |tx.stages|)
        && rows[x].task.leaseLost + 1 < c.leaseLostMax)
  }

  ghost predicate LosesCancelAt(c: Config, dbs: seq<Db>, acts: seq<Action>, n: nat, x: Id) {
    CommitAt(dbs, acts, n) && LosesCancel(c, dbs[n].rows, dbs[n].txs[acts[n].i], x)
  }

  /** The rows whose marks a reap overlooked were taken, with expired leases. */
  lemma OverlooksTaken(c: Config, rows: Recs, tx: Tx, rows': Recs)
    requires GraphInv(rows) && tx.prog.Sweeping? && Serial(c, rows, tx, rows')
    ensures forall x :: x in Overlooks(rows, tx.stages, |tx.stages|) ==>
              x in rows && Expired(rows[x], tx.prog.sweep.now) && x in Which(tx.stages, |tx.stages|)
  {
    hide GraphInv, Serial, Overlooks, Which;
    SweptUpTo(c, rows, tx, rows', |tx.stages|);
  }

  lemma LosesAsRun(c: Config, rows: Recs, tx: Tx, rows': Recs, x: Id)
    requires GraphInv(rows) && Serial(c, rows, tx, rows') && x in rows
    ensures LosesCancel(c, rows, tx, x) <==>
            var op := OpOf(rows, tx);
            (op.OpRequeue? && op.id == x && Holds(rows[x], op.token)) || Forgets(c, op, x, rows[x])
  {
    hide GraphInv, Overlooks, Which, Outcome, StageAt, Submitted;
    if tx.prog.Sweeping? {
      OverlooksTaken(c, rows, tx, rows');
    } else if tx.prog.Written? || tx.prog.Cascading? {
      var id := if tx.prog.Cascading? then tx.prog.root else tx.prog.id;
      RequeuesRow(c, tx.prog.op, id, rows[id], tx.prog.r);
    }
  }

  lemma RequeuesRow(c: Config, op: Op, id: Id, r: Rec, r': Rec)
    requires Acts(c, op, id, r, r')
    ensures RowOp(op) && (op.OpRequeue? ==> op.id == id && Holds(r, op.token) && !IsFinal(r'.task.status))
  {}

  /** Exactly when an accepted cancel is lost: at any commit of any history, a cancel that stands still stands after it
      if and only if the commit neither requeues the task nor forgets its mark. */
  lemma CancelExact(c: Config, dbs: seq<Db>, acts: seq<Action>, n: nat, x: Id)
    requires IsHistory(c, dbs, acts) && n < |acts| && x in dbs[n].rows && CancelStands(dbs[n].rows[x])
    ensures x in dbs[n + 1].rows
    ensures CancelStands(dbs[n + 1].rows[x]) <==> !LosesCancelAt(c, dbs, acts, n, x)
  {
    hide Next, Step, CancelStands, Serial, LosesCancel, OpOf, GraphInv, ChainInv, Forgets, Holds;
    if CommitAt(dbs, acts, n) {
      var s, s', reply := CommitStep(c, dbs, acts, n);
      HistorySerial(c, dbs, acts, n);
      LosesAsRun(c, dbs[n].rows, dbs[n].txs[acts[n].i], dbs[n + 1].rows, x);
      CancelExactly(c, s, OpAt(dbs, acts, n), s', reply, x);
    } else {
      Unmoved(c, dbs, acts, n);
    }
  }

  /** So a committed cancel stands from then on, through failures, claims and reaps, until such a commit. */
  lemma {:induction false} CancelKept(c: Config, dbs: seq<Db>, acts: seq<Action>, i: nat, j: nat, x: Id)
    requires IsHistory(c, dbs, acts) && i < j < |dbs| && CommitAt(dbs, acts, i)
    requires OpAt(dbs, acts, i).OpCancel? && OpAt(dbs, acts, i).id == x
    requires forall n :: i < n < j ==> !LosesCancelAt(c, dbs, acts, n, x)
    ensures x in dbs[j].rows && CancelStands(dbs[j].rows[x])
  {
    hide IsHistory, LosesCancelAt, CancelStands, OpAt, CommitAt;
    if j == i + 1 {
      CancelCommitted(c, dbs, acts, i, x);
    } else {
      CancelKept(c, dbs, acts, i, j - 1, x);
      HistoryLength(c, dbs, acts);
      CancelExact(c, dbs, acts, j - 1, x);
    }
  }

  lemma HistoryLength(c: Config, dbs: seq<Db>, acts: seq<Action>)
    requires IsHistory(c, dbs, acts)
    ensures |dbs| == |acts| + 1
  {}

  lemma CancelCommitted(c: Config, dbs: seq<Db>, acts: seq<Action>, n: nat, x: Id)
    requires IsHistory(c, dbs, acts) && CommitAt(dbs, acts, n)
    requires OpAt(dbs, acts, n).OpCancel? && OpAt(dbs, acts, n).id == x
    ensures n + 1 < |dbs| && x in dbs[n + 1].rows && CancelStands(dbs[n + 1].rows[x])
  {
    hide Next, Step, CancelStands, Serial, GraphInv, ChainInv;
    var s, s', reply := CommitStep(c, dbs, acts, n);
    HistorySerial(c, dbs, acts, n);
    CancelsRow(c, dbs[n].rows, dbs[n].txs[acts[n].i], dbs[n + 1].rows, x);
    CancelTaken(c, s, x, OpAt(dbs, acts, n).now, s', reply);
  }

  lemma CancelsRow(c: Config, rows: Recs, tx: Tx, rows': Recs, x: Id)
    requires Serial(c, rows, tx, rows') && OpOf(rows, tx).OpCancel? && OpOf(rows, tx).id == x
    ensures x in rows && !IsFinal(StatusOf(rows, x))
  {
    hide Outcome, Submitted, Overlooks;
  }

  // ---------------------------------------------------------------------------------------------
  // The order of claims
  // ---------------------------------------------------------------------------------------------

  /** The transaction is a claim of x that has its row. */
  ghost predicate HasRow(tx: Tx, op: Op, x: Id) {
    (tx.prog.Starting? && tx.prog.op == op && tx.prog.id == x && x in tx.locks)
    || (tx.prog.Written? && tx.prog.op == op && tx.prog.id == x)
  }

  lemma RowTaken(c: Config, db: Db, act: Action, tx: Tx, tx': Tx, op: Op, x: Id)
    requires TxStep(c, db, act, tx, tx') && HasRow(tx', op, x)
    ensures HasRow(tx, op, x) || (act.LockRow? && Picks(db, act.i, op, x))
  {
    hide CallStep, CascadeStep, SweepStep, Picks, HasRow;
    if CallStep(c, db, act, tx, tx') {
      CallTakes(c, db, act, tx, tx', op, x);
    } else if CascadeStep(db, act, tx, tx') {
      CascadeTakes(db, act, tx, tx', op, x);
    } else {
      SweepTakes(c, db, act, tx, tx', op, x);
    }
  }

  lemma CallTakes(c: Config, db: Db, act: Action, tx: Tx, tx': Tx, op: Op, x: Id)
    requires CallStep(c, db, act, tx, tx') && HasRow(tx', op, x)
    ensures HasRow(tx, op, x) || (act.LockRow? && Picks(db, act.i, op, x))
  {
    hide Acts, Decides, SqlSubmitRow, SqlReplayRow, NoHead, Unreplayed, Picks, Free;
  }

  lemma CascadeTakes(db: Db, act: Action, tx: Tx, tx': Tx, op: Op, x: Id)
    requires CascadeStep(db, act, tx, tx')
    ensures !HasRow(tx', op, x)
  {
    hide VisitChild, CascadeLoop.Extend, Free;
  }

  lemma SweepTakes(c: Config, db: Db, act: Action, tx: Tx, tx': Tx, op: Op, x: Id)
    requires SweepStep(c, db, act, tx, tx')
    ensures !HasRow(tx', op, x)
  {
    hide Decides, SqlReapRow, SqlCancelRow, Selected, Selects, Free;
  }

  /** A claim has its row since a moment when that was the earliest due row nobody else held. */
  lemma {:induction false} RowPicked(c: Config, dbs: seq<Db>, acts: seq<Action>, n: nat, i: nat, op: Op, x: Id)
    returns (m: nat)
    requires IsHistory(c, dbs, acts) && n < |dbs| && i in dbs[n].txs && HasRow(dbs[n].txs[i], op, x)
    ensures m < n && acts[m] == LockRow(i) && Picks(dbs[m], i, op, x)
  {
    hide TxStep, Picks;
    assert n > 0;
    var a, act, b := dbs[n - 1], acts[n - 1], dbs[n];
    assert Next(c, a, act, b);
    if act.i != i {
      assert i in a.txs && a.txs[i] == b.txs[i];
      m := RowPicked(c, dbs, acts, n - 1, i, op, x);
    } else if !act.Begin? {
      RowTaken(c, a, act, a.txs[i], b.txs[i], op, x);
      if HasRow(a.txs[i], op, x) {
        m := RowPicked(c, dbs, acts, n - 1, i, op, x);
      } else {
        m := n - 1;
      }
    }
  }

  /** Every committed claim took, at some moment before, the row with the earliest run time, and the smaller id on a
      tie, of all the rows that were due in its queues and not held by another transaction. */
  lemma ClaimsEarliest(c: Config, dbs: seq<Db>, acts: seq<Action>, n: nat) returns (m: nat)
    requires IsHistory(c, dbs, acts) && ClaimAt(dbs, acts, n)
    ensures m < n && acts[m] == LockRow(acts[n].i)
    ensures var op := OpAt(dbs, acts, n);
            op.got.Some? && op.got.value in dbs[m].rows
            && var best := dbs[m].rows[op.got.value].task;
               forall y :: y in dbs[m].rows && Free(dbs[m], acts[n].i, y)
                           && (dbs[m].rows[y].task.status == Pending || dbs[m].rows[y].task.status == Retrying)
                           && dbs[m].rows[y].task.queue in op.queues && dbs[m].rows[y].task.runAt <= op.now ==>
                 best.runAt <= dbs[m].rows[y].task.runAt
                 && (dbs[m].rows[y].task.runAt == best.runAt ==> NotSmaller(y, op.got.value))
  {
    hide Next, Serial, Free;
    HistorySerial(c, dbs, acts, n);
    var tx := dbs[n].txs[acts[n].i];
    ClaimWritten(c, dbs[n].rows, tx, dbs[n + 1].rows);
    m := RowPicked(c, dbs, acts, n, acts[n].i, tx.prog.op, tx.prog.id);
  }

  lemma ClaimWritten(c: Config, rows: Recs, tx: Tx, rows': Recs)
    requires Serial(c, rows, tx, rows') && OpOf(rows, tx).OpClaim?
    ensures tx.prog.Written? && OpOf(rows, tx) == tx.prog.op && tx.prog.op.got == Some(tx.prog.id)
  {
    hide Outcome, Submitted, Overlooks;
  }

  // ---------------------------------------------------------------------------------------------
  // Fencing
  // ---------------------------------------------------------------------------------------------

  ghost predicate HeldIn(db: Db, x: Id, token: Token) {
    x in db.rows && Holds(db.rows[x], token)
  }

  /** Lease fencing: once a claim has lost its lease, no committed row ever holds its token again and no call with it
      commits anything. */
  lemma CommitsFenced(c: Config, dbs: seq<Db>, acts: seq<Action>, i: nat, x: Id, token: Token, j: nat, k: nat)
    requires IsHistory(c, dbs, acts) && FreshClaims(dbs, acts) && i < j <= k < |dbs|
    requires ClaimAt(dbs, acts, i) && OpAt(dbs, acts, i).got == Some(x) && OpAt(dbs, acts, i).token == token
    requires !HeldIn(dbs[j], x, token)
    ensures forall y :: !HeldIn(dbs[k], y, token)
    ensures CommitAt(dbs, acts, k) && TokenCall(OpAt(dbs, acts, k)).Some? ==>
              TokenCall(OpAt(dbs, acts, k)).value.1 != token
  {
    hide IsHistory, OpAt, IsRun, FreshClaims;
    forall y ensures !HeldIn(dbs[k], y, token) {
      NeverAgain(c, dbs, acts, i, x, token, j, k, y);
    }
    if CommitAt(dbs, acts, k) && TokenCall(OpAt(dbs, acts, k)).Some? {
      CallerHolds(c, dbs, acts, k);
    }
  }

  lemma NeverAgain(c: Config, dbs: seq<Db>, acts: seq<Action>, i: nat, x: Id, token: Token, j: nat, k: nat, y: Id)
    requires IsHistory(c, dbs, acts) && FreshClaims(dbs, acts) && i < j <= k < |dbs|
    requires ClaimAt(dbs, acts, i) && OpAt(dbs, acts, i).got == Some(x) && OpAt(dbs, acts, i).token == token
    requires !HeldIn(dbs[j], x, token)
    ensures !HeldIn(dbs[k], y, token)
  {
    hide IsHistory, OpAt, FreshClaims, IsRun;
    var run, pos := HistoryIsRun(c, dbs, acts, k);
    assert Moved(dbs, acts, run, pos, i);
    PosGrows(dbs, acts, k, run, pos, i + 1, j);
    PosGrows(dbs, acts, k, run, pos, j, k);
    assert Placed(dbs, run, pos, j) && Placed(dbs, run, pos, k);
    TokenGone(c, run, pos[i], x, token, pos[j], pos[k], y);
  }

  /** A call with a token that commits holds the lease. */
  lemma CallerHolds(c: Config, dbs: seq<Db>, acts: seq<Action>, n: nat)
    requires IsHistory(c, dbs, acts) && CommitAt(dbs, acts, n) && TokenCall(OpAt(dbs, acts, n)).Some?
    ensures HeldIn(dbs[n], TokenCall(OpAt(dbs, acts, n)).value.0, TokenCall(OpAt(dbs, acts, n)).value.1)
  {
    hide Next, Serial, Inv;
    HistorySerial(c, dbs, acts, n);
    WriterHolds(c, dbs[n].rows, dbs[n].txs[acts[n].i], dbs[n + 1].rows);
  }

  lemma WriterHolds(c: Config, rows: Recs, tx: Tx, rows': Recs)
    requires Serial(c, rows, tx, rows') && TokenCall(OpOf(rows, tx)).Some?
    ensures var (id, token) := TokenCall(OpOf(rows, tx)).value; id in rows && Holds(rows[id], token)
  {
    hide Outcome, Submitted, Overlooks;
  }

  // ---------------------------------------------------------------------------------------------
  // Claims
  // ---------------------------------------------------------------------------------------------

  /** Committed claims of x among the first n actions. */
  ghost function ClaimCount(dbs: seq<Db>, acts: seq<Action>, n: nat, x: Id): nat {
    if n == 0 then 0
    else ClaimCount(dbs, acts, n - 1, x)
         + B(ClaimAt(dbs, acts, n - 1) && OpAt(dbs, acts, n - 1).got == Some(x))
  }

  ghost function RequeueCount(dbs: seq<Db>, acts: seq<Action>, n: nat, x: Id): nat {
    if n == 0 then 0
    else RequeueCount(dbs, acts, n - 1, x)
         + B(CommitAt(dbs, acts, n - 1) && OpAt(dbs, acts, n - 1).OpRequeue? && OpAt(dbs, acts, n - 1).id == x)
  }

  lemma {:induction false} CountsAlong(c: Config, dbs: seq<Db>, acts: seq<Action>, n: nat, run: Run, pos: seq<nat>,
                                       m: nat, x: Id)
    requires IsHistory(c, dbs, acts) && Traces(dbs, acts, n, run, pos) && IsRun(c, run) && m <= n
    ensures pos[m] <= |run.ops|
    ensures ClaimCount(dbs, acts, m, x) == Claims(run, pos[m], x)
    ensures RequeueCount(dbs, acts, m, x) == Requeues(run, pos[m], x)
  {
    hide IsHistory, OpAt, IsRun, CommitAt, RequeuedAt;
    assert Placed(dbs, run, pos, m);
    if m > 0 {
      CountsAlong(c, dbs, acts, n, run, pos, m - 1, x);
      assert Moved(dbs, acts, run, pos, m - 1) && Placed(dbs, run, pos, m - 1);
      if CommitAt(dbs, acts, m - 1) {
        RequeueSeen(c, dbs, acts, m - 1, run, pos[m - 1], x);
      }
    }
  }

  lemma RequeueSeen(c: Config, dbs: seq<Db>, acts: seq<Action>, n: nat, run: Run, k: nat, x: Id)
    requires IsHistory(c, dbs, acts) && CommitAt(dbs, acts, n) && IsRun(c, run) && k < |run.ops|
    requires run.ops[k] == OpAt(dbs, acts, n) && run.states[k].recs == dbs[n].rows
    ensures RequeuedAt(run, k, x) <==> OpAt(dbs, acts, n).OpRequeue? && OpAt(dbs, acts, n).id == x
  {
    hide IsHistory, OpAt, IsRun, CommitAt, Own;
    var op := run.ops[k];
    if op.OpRequeue? && op.id == x {
      CallerHolds(c, dbs, acts, n);
      OwnHappens(c, run, k, x);
    }
  }

  /** Action b commits x with zero counters and a non-negative retry budget. */
  ghost predicate CommitsClean(dbs: seq<Db>, b: nat, x: Id) {
    b + 1 < |dbs| && x !in dbs[b].rows && x in dbs[b + 1].rows
    && var t := dbs[b + 1].rows[x].task;
       t.attempts == 0 && t.throttled == 0 && t.leaseLost == 0 && t.maxRetry >= 0
  }

  /** Every committed claim is accounted for by a counter, a requeue, the running lease or, once at most, the end of the
      task; so claims that were not given back stay within the three caps. */
  lemma CommittedClaims(c: Config, dbs: seq<Db>, acts: seq<Action>, b: nat, n: nat, x: Id)
    requires IsHistory(c, dbs, acts) && FreshClaims(dbs, acts) && CommitsClean(dbs, b, x) && b < n < |dbs|
    requires c.throttledMax > 0 && c.leaseLostMax > 0
    ensures x in dbs[n].rows
    ensures var r := dbs[n].rows[x]; var spent := ClaimCount(dbs, acts, n, x) - RequeueCount(dbs, acts, n, x);
            0 <= spent - Counters(r.task) - B(r.task.status.Running?) <= 1
            && spent <= r.task.maxRetry + c.throttledMax + c.leaseLostMax - 1
  {
    hide IsHistory, OpAt, IsRun, FreshClaims, CommitAt;
    var run, pos := HistoryIsRun(c, dbs, acts, n);
    assert Moved(dbs, acts, run, pos, b) && Placed(dbs, run, pos, b) && Placed(dbs, run, pos, b + 1);
    if !CommitAt(dbs, acts, b) {
      HistoryLength(c, dbs, acts);
      Unmoved(c, dbs, acts, b);
    }
    PosGrows(dbs, acts, n, run, pos, b + 1, n);
    TracesEnd(dbs, acts, n, run, pos);
    assert BornClean(c, run, pos[b], x);
    CountsAlong(c, dbs, acts, n, run, pos, n, x);
    ClaimsConserved(c, run, pos[b], pos[n], x);
    ClaimsBounded(c, run, pos[b], pos[n], x);
  }

  // ---------------------------------------------------------------------------------------------
  // Chains
  // ---------------------------------------------------------------------------------------------

  /** A key has one head, and an execution is replayed at most once, after it is final, under the same key. */
  lemma CommittedChains(c: Config, dbs: seq<Db>, acts: seq<Action>, n: nat, x: Id, y: Id)
    requires IsHistory(c, dbs, acts) && n < |dbs| && x in dbs[n].rows && y in dbs[n].rows
    requires dbs[n].rows[x].task.replayOf == dbs[n].rows[y].task.replayOf
    requires dbs[n].rows[x].task.businessKey == dbs[n].rows[y].task.businessKey
    ensures dbs[n].rows[x].task.businessKey != "" || dbs[n].rows[x].task.replayOf != "" ==> x == y
    ensures var z := dbs[n].rows[x].task.replayOf;
            z != "" ==> z in dbs[n].rows && IsFinal(StatusOf(dbs[n].rows, z))
                        && dbs[n].rows[z].task.businessKey == dbs[n].rows[x].task.businessKey
  {
    hide IsHistory, GraphInv, Steps;
    var run, pos := HistorySteps(c, dbs, acts, n);
    TracesEnd(dbs, acts, n, run, pos);
    var s := run.states[|run.ops|];
    var z, k := s.recs[x].task.replayOf, s.recs[x].task.businessKey;
    assert Listed(s, x) && Listed(s, y);
    if z != "" {
      assert Replays(s, x, z) && Replays(s, y, z) && ReplayedOk(s, z);
    } else if k != "" {
      HeadFirst(s, k, x);
      HeadFirst(s, k, y);
    }
  }

  lemma HeadFirst(s: State, k: Key, x: Id)
    requires Inv(s) && x in s.recs && k != "" && s.recs[x].task.businessKey == k && s.recs[x].task.replayOf == ""
    ensures k in s.chains && s.chains[k] != [] && x == s.chains[k][0]
  {
    hide GraphInv;
    NoEmptyId(s);
    assert Listed(s, x) && ChainOk(s, k);
    var i :| 0 <= i < |s.chains[k]| && s.chains[k][i] == x;
    LinkBack(s, k, i);
  }

  lemma LinkBack(s: State, k: Key, i: nat)
    requires k in s.chains && ChainOk(s, k) && i < |s.chains[k]|
    ensures var ch := s.chains[k];
            ch[i] in s.recs && (i > 0 ==> ch[i - 1] in s.recs && s.recs[ch[i]].task.replayOf == ch[i - 1])
  {
    assert LinkOk(s, k, s.chains[k], i);
    assert i > 0 ==> LinkOk(s, k, s.chains[k], i - 1);
  }
}
