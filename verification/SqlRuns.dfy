/** SQL histories as runs of the reference broker: the commits of a history, in their order, are the calls of a run. */
module SqlRuns {
  import opened Model
  import opened Cascade
  import opened Spec
  import opened Graph
  import opened Invariants
  import opened Reachable
  import opened Runs
  import opened Reaping
  import opened SqlProtocol
  import SqlInvariant
  import opened SqlReaper
  import opened SqlCommits
  import opened SqlHistory

  // ---------------------------------------------------------------------------------------------
  // The reaper
  // ---------------------------------------------------------------------------------------------

  /** The leases the reaper took, up to its k-th row. */
  ghost function Which(stages: seq<Stage>, k: nat): set<Id>
    requires k <= |stages|
  {
    if k == 0 then {} else Which(stages, k - 1) + if stages[k - 1].pass == 2 then {} else {stages[k - 1].id}
  }

  /** Pass 1 took a lease that carried a cancel mark. */
  ghost predicate MeetsMark(rows: Recs, stages: seq<Stage>, k: nat)
    requires k < |stages|
  {
    var V := At(rows, stages, k);
    stages[k].pass == 1 && stages[k].id in V && V[stages[k].id].cancelRequested
  }

  /** The leases whose cancel mark the reaper overlooked, up to its k-th row. */
  ghost function Overlooks(rows: Recs, stages: seq<Stage>, k: nat): set<Id>
    requires k <= |stages|
  {
    set j | 0 <= j < k && MeetsMark(rows, stages, j) :: stages[j].id
  }

  /** The committed rows as the reaper took them, up to its k-th row. */
  ghost function TakenFrom(rows: Recs, stages: seq<Stage>, now: int, k: nat): Recs
    requires k <= |stages|
  {
    Overlooked(rows, Overlooks(rows, stages, k), now)
  }

  /** A reaped lease does not run again within the reap. */
  lemma SeenStopped(c: Config, recs0: Recs, seen: set<Id>, now: int, recs: Recs, id: Id)
    requires ReapedSoFar(c, recs0, seen, now, recs) && id in seen && id in recs0 && Expired(recs0[id], now)
    ensures id in recs && !recs[id].task.status.Running?
  {
    hide Doomed, NamesOne, ReapRec, Ended;
    var pre, roots := Reaped(c, recs0, seen, now), Ended(c, recs0, seen, now);
    ReapShape(c, recs0[id], now);
    SettledOne(pre, roots, Doomed(pre, roots), now, recs, id);
  }

  ghost predicate SweptSoFar(c: Config, rows: Recs, stages: seq<Stage>, now: int, k: nat)
    requires k <= |stages|
  {
    ReapedSoFar(c, TakenFrom(rows, stages, now, k), Which(stages, k), now, At(rows, stages, k))
    && At(rows, stages, k).Keys == rows.Keys && Overlooks(rows, stages, k) <= Which(stages, k)
    && forall x :: x in Which(stages, k) ==> x in rows && Expired(rows[x], now)
  }

  /** Row by row the reaper's transaction is the order-free reap of the leases it took. */
  lemma {:induction false} SweptUpTo(c: Config, rows: Recs, tx: Tx, rows': Recs, k: nat)
    requires GraphInv(rows) && tx.prog.Sweeping? && Serial(c, rows, tx, rows') && k <= |tx.stages|
    ensures SweptSoFar(c, rows, tx.stages, tx.prog.sweep.now, k)
  {
    hide GraphInv, ReapedSoFar, StageAt, At, Which, Overlooks;
    var stages, now := tx.stages, tx.prog.sweep.now;
    if k == 0 {
      SweptNone(c, rows, stages, now);
    } else {
      SweptUpTo(c, rows, tx, rows', k - 1);
      assert StageAt(c, rows, stages, now, k - 1);
      SweptNext(c, rows, stages, now, k - 1);
    }
  }

  lemma SweptNone(c: Config, rows: Recs, stages: seq<Stage>, now: int)
    ensures SweptSoFar(c, rows, stages, now, 0)
  {
    hide ReapedSoFar;
    ReapedNone(c, rows, now);
    OverlookNone(rows, now);
    assert Overlooks(rows, stages, 0) == {};
    assert rows + map[] == rows;
  }

  /** Taking the mark off a lease not yet reaped commutes with what has been reaped. */
  lemma UnmarkNext(c: Config, recs0: Recs, seen: set<Id>, now: int, recs: Recs, id: Id)
    requires GraphInv(recs0) && ReapedSoFar(c, recs0, seen, now, recs)
    requires id in recs0 && id !in seen && Expired(recs0[id], now)
    ensures id in recs && ReapedSoFar(c, recs0[id := Unmarked(recs0[id])], seen, now, recs[id := Unmarked(recs[id])])
  {
    hide GraphInv, Outcome, ReapRec, Doomed;
    var pre, roots, r := Reaped(c, recs0, seen, now), Ended(c, recs0, seen, now), Unmarked(recs0[id]);
    NotYetReaped(c, recs0, seen, now, recs, id);
    EndReaped(c, recs0, seen, now);
    assert Parents(r) == Parents(pre[id]);
    OutcomePlain(pre, roots, now, recs, id, r);
    assert Reaped(c, recs0[id := r], seen, now) == pre[id := r];
    assert Ended(c, recs0[id := r], seen, now) == roots;
  }

  /** One more lease, its mark overlooked or not. */
  lemma TakeLease(c: Config, recs0: Recs, seen: set<Id>, now: int, recs: Recs, id: Id, unseen: bool, after: Recs)
    requires GraphInv(recs0) && ReapedSoFar(c, recs0, seen, now, recs) && recs.Keys == recs0.Keys
    requires id in recs && id !in seen && Expired(recs[id], now)
    requires var r := ReapRec(c, SeenAs(recs[id], unseen), now);
             if IsFinal(r.task.status) then Outcome(recs[id := r], {id}, now, after) else after == recs[id := r]
    ensures recs[id] == recs0[id] && after.Keys == recs0.Keys
    ensures ReapedSoFar(c, recs0[id := SeenAs(recs0[id], unseen)], seen + {id}, now, after)
  {
    hide GraphInv, ReapedSoFar, ReapRec, Outcome;
    NotYetReaped(c, recs0, seen, now, recs, id);
    var base, before := recs0[id := SeenAs(recs0[id], unseen)], recs[id := SeenAs(recs[id], unseen)];
    assert GraphInv(base) by { GraphPlain(recs0, id, SeenAs(recs0[id], unseen)); }
    if unseen {
      UnmarkNext(c, recs0, seen, now, recs, id);
    } else {
      assert base == recs0 && before == recs;
    }
    ghost var r := ReapRec(c, before[id], now);
    assert before[id := r] == recs[id := r];
    ReapOneKeeps(c, base, seen, now, before, id, after, true);
  }

  lemma OverlooksNext(rows: Recs, stages: seq<Stage>, now: int, k: nat)
    requires k < |stages| && stages[k].id in rows && stages[k].id !in Overlooks(rows, stages, k)
    ensures Overlooks(rows, stages, k + 1)
            == Overlooks(rows, stages, k) + if MeetsMark(rows, stages, k) then {stages[k].id} else {}
    ensures Expired(rows[stages[k].id], now) ==>
              var base, id := TakenFrom(rows, stages, now, k), stages[k].id;
              TakenFrom(rows, stages, now, k + 1) == base[id := SeenAs(base[id], MeetsMark(rows, stages, k))]
  {
    hide MeetsMark;
    var id := stages[k].id;
    forall x ensures x in Overlooks(rows, stages, k + 1) <==>
                     x in Overlooks(rows, stages, k) || (x == id && MeetsMark(rows, stages, k)) {}
  }

  lemma OverlooksSame(rows: Recs, stages: seq<Stage>, k: nat)
    requires k < |stages| && !MeetsMark(rows, stages, k)
    ensures Overlooks(rows, stages, k + 1) == Overlooks(rows, stages, k)
  {}

  lemma SweptNext(c: Config, rows: Recs, stages: seq<Stage>, now: int, k: nat)
    requires GraphInv(rows) && k < |stages| && SweptSoFar(c, rows, stages, now, k) && StageAt(c, rows, stages, now, k)
    ensures SweptSoFar(c, rows, stages, now, k + 1)
  {
    hide GraphInv, ReapedSoFar, ReapRec, SqlReapRow, Outcome, Overlooks, Overlooked, Doomed, Ended, Reaped, At;
    var st, seen, before, after := stages[k], Which(stages, k), At(rows, stages, k), At(rows, stages, k + 1);
    var base := TakenFrom(rows, stages, now, k);
    if st.pass == 2 {
      OverlooksSame(rows, stages, k);
      assert seen + {} == seen;
    } else {
      OverlookedGraph(rows, Overlooks(rows, stages, k), now);
      OverlookedRow(rows, Overlooks(rows, stages, k), now, st.id);
      if st.id in seen {
        SeenStopped(c, base, seen, now, before, st.id);
      }
      ReapOverlooks(c, st.pass, before[st.id], st.r, now);
      SeenMark(before[st.id], st.pass);
      TakeLease(c, base, seen, now, before, st.id, MeetsMark(rows, stages, k), after);
      OverlooksNext(rows, stages, now, k);
    }
  }

  lemma OverlookedRow(rows: Recs, unseen: set<Id>, now: int, x: Id)
    ensures Overlooked(rows, unseen, now).Keys == rows.Keys
    ensures x in rows ==> Expired(Overlooked(rows, unseen, now)[x], now) == Expired(rows[x], now)
  {}

  lemma SeenMark(r: Rec, pass: nat)
    ensures SeenAs(r, pass == 1) == SeenAs(r, pass == 1 && r.cancelRequested)
  {}

  /** The commit of a reap is the reference reap that skips the leases left to others and overlooks the marks that its
      second select met. */
  lemma SweepIsReap(c: Config, s: State, tx: Tx, rows': Recs)
    requires GraphInv(s.recs) && tx.prog.Sweeping? && Serial(c, s.recs, tx, rows')
    ensures var n := |tx.stages|;
            ReapCall(c, s, tx.prog.sweep.now, s.recs.Keys - Which(tx.stages, n), Overlooks(s.recs, tx.stages, n),
                     s.(recs := rows'))
  {
    hide GraphInv, StageStep, Reaped, Ended, Outcome, Overlooks, Overlooked;
    var which, unseen := Which(tx.stages, |tx.stages|), Overlooks(s.recs, tx.stages, |tx.stages|);
    SweptUpTo(c, s.recs, tx, rows', |tx.stages|);
    OverlookedRow(s.recs, unseen, tx.prog.sweep.now, "");
    assert s.recs.Keys - (s.recs.Keys - which) == which;
  }

  // ---------------------------------------------------------------------------------------------
  // One commit, one reference step
  // ---------------------------------------------------------------------------------------------

  /** The reference call a transaction carries out. */
  ghost function OpOf(rows: Recs, tx: Tx): Op {
    match tx.prog
    case Linking(t, id, now, _, _) => OpEnqueue(t, id, now)
    case Copied(req, gen, now, _) => OpReplay(req, gen, now)
    case Cascading(op, _, _, _, _, _, _, _) => Stored(op)
    case Written(op, _, _) => Stored(op)
    case Sweeping(sweep) =>
      OpReap(sweep.now, rows.Keys - Which(tx.stages, |tx.stages|), Overlooks(rows, tx.stages, |tx.stages|))
    case _ => OpReap(0, {}, {})
  }

  lemma FreeKey(s: State, key: Key)
    requires Inv(s) && key != "" && NoHead(s.recs, key)
    ensures !HasChain(s, key)
  {
    hide GraphInv;
    if HasChain(s, key) {
      ChainHead(s, key);
    }
  }

  lemma ChainHead(s: State, key: Key)
    requires Inv(s) && HasChain(s, key)
    ensures var x := s.chains[key][0]; x in s.recs && s.recs[x].task.replayOf == "" && s.recs[x].task.businessKey == key
  {
    assert ChainOk(s, key) && LinkOk(s, key, s.chains[key], 0);
  }

  lemma FreeTarget(s: State, target: Id)
    requires Inv(s) && target in s.recs && Unreplayed(s.recs, target)
    ensures target !in s.replayed && s.recs[target].task.id == target && "" !in s.recs
  {
    hide GraphInv;
    NoEmptyId(s);
    assert RecOk(target, s.recs[target]);
    if target in s.replayed {
      ReplayOf(s, target);
    }
  }

  lemma ReplayOf(s: State, y: Id)
    requires Inv(s) && y in s.replayed
    ensures exists x :: x in s.recs && s.recs[x].task.replayOf == y
  {
    assert ReplayedOk(s, y);
    var x :| Replays(s, x, y);
  }

  lemma LinkIsStep(c: Config, s: State, tx: Tx, rows': Recs)
    requires Inv(s) && tx.prog.Linking? && Serial(c, s.recs, tx, rows')
    ensures Step(c, s, OpOf(s.recs, tx),
                 s.(recs := rows', chains := Appended(s.chains, tx.prog.t.businessKey, tx.prog.id)), Ok)
  {
    hide Submitted, Inv;
    var t := tx.prog.t;
    if t.businessKey != "" {
      FreeKey(s, t.businessKey);
    }
    assert forall p :: p in t.dependsOn <==> p in ParentSet(t.dependsOn);
  }

  lemma CopyIsStep(c: Config, s: State, tx: Tx, rows': Recs)
    requires Inv(s) && tx.prog.Copied? && Serial(c, s.recs, tx, rows')
    ensures var key := s.recs[tx.prog.target].task.businessKey;
            Step(c, s, OpOf(s.recs, tx),
                 State(rows', Appended(s.chains, key, tx.prog.gen), s.replayed + {tx.prog.target}), Ok)
  {
    hide GraphInv, Unreplayed;
    var req, target := tx.prog.req, tx.prog.target;
    FreeTarget(s, target);
    if req.businessKey != "" {
      UnreplayedIsTail(s, target);
    }
  }

  lemma RowIsStep(c: Config, s: State, tx: Tx, rows': Recs) returns (reply: Reply)
    requires (tx.prog.Cascading? || tx.prog.Written?) && Serial(c, s.recs, tx, rows')
    ensures Step(c, s, OpOf(s.recs, tx), s.(recs := rows'), reply)
  {
    hide Outcome, FailRec, Acts;
    var op, id, r := tx.prog.op, if tx.prog.Cascading? then tx.prog.root else tx.prog.id, tx.prog.r;
    ActsStored(c, op, id, s.recs[id], r);
    ActsOwn(c, op, id, s.recs[id], r);
    ActsRow(c, op, id, s.recs[id], r);
    reply := if op.OpHeartbeat? && s.recs[id].cancelRequested then Err(TaskCanceled(id)) else Ok;
  }

  lemma ActsRow(c: Config, op: Op, id: Id, r: Rec, r': Rec)
    requires Acts(c, op, id, r, r')
    ensures RowOp(op) && (op.OpAck? ==> IsFinal(r'.task.status))
  {}

  /** Every commit is the reference broker's step for the same call, chains and replay marks included; an Ack without a
      result is one with an empty result, and a reap overlooks the marks its second select met. */
  lemma CommitIsStep(c: Config, s: State, tx: Tx, rows': Recs) returns (s': State, reply: Reply)
    requires Inv(s) && Serial(c, s.recs, tx, rows')
    ensures s'.recs == rows' && Step(c, s, OpOf(s.recs, tx), s', reply)
  {
    hide Step, OpOf, Inv;
    reply := Ok;
    if tx.prog.Linking? {
      hide Serial;
      s' := s.(recs := rows', chains := Appended(s.chains, tx.prog.t.businessKey, tx.prog.id));
      LinkIsStep(c, s, tx, rows');
    } else if tx.prog.Copied? {
      CopyTarget(c, s.recs, tx, rows');
      hide Serial;
      var key := s.recs[tx.prog.target].task.businessKey;
      s' := State(rows', Appended(s.chains, key, tx.prog.gen), s.replayed + {tx.prog.target});
      CopyIsStep(c, s, tx, rows');
    } else if tx.prog.Sweeping? {
      s' := s.(recs := rows');
      ReapIsStep(c, s, tx, rows');
    } else {
      s' := s.(recs := rows');
      reply := RowIsStep(c, s, tx, rows');
    }
  }

  lemma CopyTarget(c: Config, rows: Recs, tx: Tx, rows': Recs)
    requires tx.prog.Copied? && Serial(c, rows, tx, rows')
    ensures tx.prog.target in rows
  {}

  lemma ReapIsStep(c: Config, s: State, tx: Tx, rows': Recs)
    requires Inv(s) && tx.prog.Sweeping? && Serial(c, s.recs, tx, rows')
    ensures Step(c, s, OpOf(s.recs, tx), s.(recs := rows'), Ok)
  {
    hide GraphInv, ReapCall, Serial, ChainInv;
    SweepIsReap(c, s, tx, rows');
  }

  // ---------------------------------------------------------------------------------------------
  // Histories
  // ---------------------------------------------------------------------------------------------

  ghost predicate CommitAt(dbs: seq<Db>, acts: seq<Action>, m: nat) {
    m < |acts| && m < |dbs| && acts[m].Commit? && acts[m].i in dbs[m].txs
  }

  ghost function OpAt(dbs: seq<Db>, acts: seq<Action>, m: nat): Op
    requires CommitAt(dbs, acts, m)
  {
    OpOf(dbs[m].rows, dbs[m].txs[acts[m].i])
  }

  ghost predicate ClaimAt(dbs: seq<Db>, acts: seq<Action>, m: nat) {
    CommitAt(dbs, acts, m) && OpAt(dbs, acts, m).OpClaim?
  }

  /** Every committed claim drew a token of its own. */
  ghost predicate FreshClaims(dbs: seq<Db>, acts: seq<Action>) {
    forall m: nat, n: nat :: m < n && ClaimAt(dbs, acts, m) && ClaimAt(dbs, acts, n) ==>
      OpAt(dbs, acts, m).token != OpAt(dbs, acts, n).token
  }

  /** The rows committed at moment m are the run's state number pos[m]. */
  ghost predicate Placed(dbs: seq<Db>, run: Run, pos: seq<nat>, m: nat)
    requires m < |pos|
  {
    m < |dbs| && pos[m] < |run.states| && run.states[pos[m]].recs == dbs[m].rows
  }

  /** Action m is the run's call number pos[m] if it is a commit, and no call otherwise. */
  ghost predicate Moved(dbs: seq<Db>, acts: seq<Action>, run: Run, pos: seq<nat>, m: nat)
    requires m + 1 < |pos|
  {
    if CommitAt(dbs, acts, m)
    then pos[m + 1] == pos[m] + 1 && pos[m] < |run.ops| && run.ops[pos[m]] == OpAt(dbs, acts, m)
    else pos[m + 1] == pos[m]
  }

  ghost predicate Traces(dbs: seq<Db>, acts: seq<Action>, n: nat, run: Run, pos: seq<nat>) {
    |pos| == n + 1 && |run.states| == |run.ops| + 1 && pos[0] == 0 && pos[n] == |run.ops|
    && (forall m: nat :: m <= n ==> Placed(dbs, run, pos, m))
    && (forall m: nat :: m < n ==> Moved(dbs, acts, run, pos, m))
  }

  lemma {:induction false} PosGrows(dbs: seq<Db>, acts: seq<Action>, n: nat, run: Run, pos: seq<nat>, j: nat, k: nat)
    requires Traces(dbs, acts, n, run, pos) && j <= k <= n
    ensures pos[j] <= pos[k]
  {
    hide OpAt;
    if j < k {
      PosGrows(dbs, acts, n, run, pos, j, k - 1);
      assert Moved(dbs, acts, run, pos, k - 1);
    }
  }

  /** Every call of the run is a commit of the history. */
  lemma {:induction false} CommitOf(dbs: seq<Db>, acts: seq<Action>, n: nat, run: Run, pos: seq<nat>, m: nat, k: nat)
    returns (j: nat)
    requires Traces(dbs, acts, n, run, pos) && m <= n && k < pos[m]
    ensures j < m && pos[j] == k && CommitAt(dbs, acts, j) && k < |run.ops| && run.ops[k] == OpAt(dbs, acts, j)
  {
    hide OpAt, CommitAt;
    assert Moved(dbs, acts, run, pos, m - 1);
    if k < pos[m - 1] {
      j := CommitOf(dbs, acts, n, run, pos, m - 1, k);
    } else {
      j := m - 1;
    }
  }

  lemma TokensFresh(dbs: seq<Db>, acts: seq<Action>, n: nat, run: Run, pos: seq<nat>)
    requires Traces(dbs, acts, n, run, pos) && FreshClaims(dbs, acts)
    ensures FreshTokens(run.ops)
  {
    hide OpAt;
    forall i, j | 0 <= i < j < |run.ops| && run.ops[i].OpClaim? && run.ops[j].OpClaim?
      ensures run.ops[i].token != run.ops[j].token
    {
      var a := CommitOf(dbs, acts, n, run, pos, n, i);
      var b := CommitOf(dbs, acts, n, run, pos, n, j);
      if b <= a {
        PosGrows(dbs, acts, n, run, pos, b, a);
      }
      assert ClaimAt(dbs, acts, a) && ClaimAt(dbs, acts, b);
    }
  }

  lemma TracesIdle(dbs: seq<Db>, acts: seq<Action>, n: nat, run: Run, pos: seq<nat>)
    requires Traces(dbs, acts, n, run, pos) && !CommitAt(dbs, acts, n) && n + 1 < |dbs|
    requires dbs[n + 1].rows == dbs[n].rows
    ensures Traces(dbs, acts, n + 1, run, pos + [pos[n]])
  {
    hide OpAt, CommitAt;
    var pos', n' := pos + [pos[n]], n + 1;
    assert Placed(dbs, run, pos, n);
    forall m: nat | m <= n' ensures Placed(dbs, run, pos', m) {
      assert m <= n ==> Placed(dbs, run, pos, m);
    }
    forall m: nat | m < n' ensures Moved(dbs, acts, run, pos', m) {
      assert m < n ==> Moved(dbs, acts, run, pos, m);
    }
  }

  lemma TracesNext(dbs: seq<Db>, acts: seq<Action>, n: nat, run: Run, pos: seq<nat>, run': Run)
    requires Traces(dbs, acts, n, run, pos) && CommitAt(dbs, acts, n) && n + 1 < |dbs|
    requires |run'.states| == |run.states| + 1 && run'.states[..|run.states|] == run.states
    requires run'.ops == run.ops + [OpAt(dbs, acts, n)] && run'.states[|run.states|].recs == dbs[n + 1].rows
    ensures Traces(dbs, acts, n + 1, run', pos + [pos[n] + 1])
  {
    hide OpAt, CommitAt;
    var pos', n' := pos + [pos[n] + 1], n + 1;
    forall m: nat | m <= n' ensures Placed(dbs, run', pos', m) {
      if m <= n {
        assert Placed(dbs, run, pos, m);
        assert run'.states[pos[m]] == run'.states[..|run.states|][pos[m]];
      }
    }
    forall m: nat | m < n' ensures Moved(dbs, acts, run', pos', m) {
      assert m < n ==> Moved(dbs, acts, run, pos, m);
    }
  }

  /** Steps so far, token freshness aside. */
  ghost predicate Steps(c: Config, run: Run) {
    |run.states| == |run.ops| + 1 && |run.replies| == |run.ops| && run.states[0] == Empty
    && forall i :: 0 <= i < |run.ops| ==> StepAt(c, run, i)
  }

  lemma StepsNext(c: Config, run: Run, op: Op, s': State, reply: Reply)
    requires Steps(c, run) && Step(c, run.states[|run.ops|], op, s', reply)
    ensures Steps(c, Run(run.states + [s'], run.ops + [op], run.replies + [reply]))
  {
    hide Step;
    var run' := Run(run.states + [s'], run.ops + [op], run.replies + [reply]);
    forall i | 0 <= i < |run'.ops| ensures StepAt(c, run', i) {
      if i < |run.ops| {
        assert StepAt(c, run, i);
      }
    }
  }

  /** The commits of any history, in commit order, are steps of the reference broker that end in the committed rows. */
  lemma {:induction false} HistorySteps(c: Config, dbs: seq<Db>, acts: seq<Action>, n: nat)
    returns (run: Run, pos: seq<nat>)
    requires IsHistory(c, dbs, acts) && n < |dbs|
    ensures Steps(c, run) && Inv(run.states[|run.ops|]) && Traces(dbs, acts, n, run, pos)
  {
    hide Next, Inv, Traces, Step, SqlInvariant.Inv, Serial, OpOf;
    if n == 0 {
      run, pos := Run([Empty], [], []), [0];
      InvStart();
      assert Traces(dbs, acts, 0, run, pos) by { TracesNone(dbs, acts); }
    } else {
      var before, pos0 := HistorySteps(c, dbs, acts, n - 1);
      TracesEnd(dbs, acts, n - 1, before, pos0);
      HistorySerial(c, dbs, acts, n - 1);
      if acts[n - 1].Commit? {
        var tx := dbs[n - 1].txs[acts[n - 1].i];
        var s := before.states[|before.ops|];
        var s', reply := CommitIsStep(c, s, tx, dbs[n].rows);
        StepInv(c, s, OpOf(s.recs, tx), s', reply);
        StepsNext(c, before, OpOf(s.recs, tx), s', reply);
        run := Run(before.states + [s'], before.ops + [OpOf(s.recs, tx)], before.replies + [reply]);
        assert CommitAt(dbs, acts, n - 1);
        TracesNext(dbs, acts, n - 1, before, pos0, run);
        pos := pos0 + [pos0[n - 1] + 1];
      } else {
        assert !CommitAt(dbs, acts, n - 1);
        TracesIdle(dbs, acts, n - 1, before, pos0);
        run, pos := before, pos0 + [pos0[n - 1]];
      }
    }
  }

  lemma TracesNone(dbs: seq<Db>, acts: seq<Action>)
    requires |dbs| > 0 && dbs[0].rows == map[]
    ensures Traces(dbs, acts, 0, Run([Empty], [], []), [0])
  {
    assert Placed(dbs, Run([Empty], [], []), [0], 0);
  }

  lemma TracesEnd(dbs: seq<Db>, acts: seq<Action>, n: nat, run: Run, pos: seq<nat>)
    requires Traces(dbs, acts, n, run, pos)
    ensures |run.states| == |run.ops| + 1 && |pos| == n + 1 && n < |dbs| && run.states[|run.ops|].recs == dbs[n].rows
  {
    assert Placed(dbs, run, pos, n);
  }

  /** With tokens drawn once the commits of any history are a run of the reference broker: what holds of every run -
      fencing, claim bounds, chains, cancellation - holds of the SQL backends. */
  lemma HistoryIsRun(c: Config, dbs: seq<Db>, acts: seq<Action>, n: nat) returns (run: Run, pos: seq<nat>)
    requires IsHistory(c, dbs, acts) && FreshClaims(dbs, acts) && n < |dbs|
    ensures IsRun(c, run) && Traces(dbs, acts, n, run, pos)
  {
    hide Traces, Step, FreshClaims, Inv, IsHistory;
    run, pos := HistorySteps(c, dbs, acts, n);
    TokensFresh(dbs, acts, n, run, pos);
  }
}
