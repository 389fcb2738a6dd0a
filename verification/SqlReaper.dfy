/** The reaper's transaction: several leases ended in one transaction, then blocked rows checked against parent statuses
    that are read without a lock. */
module SqlReaper {
  import opened Model
  import opened Deps
  import opened Cascade
  import CascadeLoop
  import opened Spec
  import opened Graph
  import opened Invariants
  import opened SqlProtocol
  import opened SqlInvariant

  lemma StagesAppend(c: Config, rows: Recs, tx: Tx, st: Stage, locks: set<Id>)
    requires StagesOk(c, rows, tx.stages, locks) && StageOk(c, rows, st, locks) && st.before == Base(tx)
    ensures StagesOk(c, rows, tx.stages + [st], locks)
  {
    hide StageOk;
    var stages := tx.stages + [st];
    forall k | 0 <= k < |stages|
      ensures StageOk(c, rows, stages[k], locks) && Chained(stages, k)
    {
      if k < |tx.stages| {
        assert StageOk(c, rows, tx.stages[k], locks) && Chained(tx.stages, k);
      }
    }
  }

  // ---- the lease passes ----

  lemma LockExpiredKept(c: Config, db: Db, act: Action, tx: Tx, tx': Tx)
    requires TxOk(c, db.rows, tx) && act.LockExpired? && SweepStep(c, db, act, tx, tx')
    ensures TxOk(c, db.rows, tx')
  {
    hide StagesOk, Selected;
    StagesMore(c, db.rows, tx.stages, tx.locks, tx'.locks);
    BaseIds(c, db.rows, tx);
    var V := db.rows + Base(tx);
    forall x | x in act.ids ensures x in tx'.locks && x in V && Selected(V[x], tx.prog.sweep.pass, tx.prog.sweep.now) {
      assert x in ParentSet(act.ids);
    }
  }

  /** The row at the head of the list, and those after it. */
  lemma HeadOfTodo(V: Recs, sweep: Sweep, locks: set<Id>)
    requires TodoOk(V, sweep, locks) && sweep.pass <= 1 && sweep.todo.Some? && |sweep.todo.value| > 0
    ensures var id := sweep.todo.value[0];
            id in V && id in locks && Selected(V[id], sweep.pass, sweep.now) && NotInTodo(Rest(sweep), id)
    ensures TodoOk(V, Rest(sweep), locks)
  {
    hide Selected;
    var todo := sweep.todo.value;
    assert todo == [todo[0]] + todo[1..];
    assert todo[0] in todo;
  }

  lemma TodoPut(V: Recs, sweep: Sweep, locks: set<Id>, id: Id, r: Rec)
    requires TodoOk(V, sweep, locks) && NotInTodo(sweep, id)
    ensures TodoOk(V[id := r], sweep, locks)
  {
    hide Selected;
  }

  lemma TodoCascaded(V: Recs, root: Id, r: Rec, work: seq<Id>, now: int, view: Recs, sweep: Sweep, locks: set<Id>)
    requires Cascaded(V, root, r, work, |work|, {}, now, view, locks) && TodoOk(V, sweep, locks)
             && NotInTodo(sweep, root)
    ensures TodoOk(view, sweep, locks)
  {
    hide CascadeLoop.Progress, HeardLocked, Outcome;
    if sweep.pass <= 1 && sweep.todo.Some? {
      CascadeLoop.ProgressFinish(V[root := r], root, work, now, view);
      forall x | x in sweep.todo.value ensures x in view && Selected(view[x], sweep.pass, sweep.now) {
        assert Selected(V[x], sweep.pass, sweep.now);
        RunningKept(V[root := r], root, now, view, x);
      }
    }
  }

  lemma WriteReapKept(c: Config, db: Db, act: Action, tx: Tx, tx': Tx)
    requires TxOk(c, db.rows, tx) && act.WriteReap? && SweepStep(c, db, act, tx, tx')
    ensures TxOk(c, db.rows, tx')
  {
    hide StagesOk, TodoOk, Selected, SqlReapRow, Cascaded, ReapsRow, AllSameIds, NotInTodo;
    var sweep, V, id := tx.prog.sweep, db.rows + Base(tx), RowAt(tx);
    BaseIds(c, db.rows, tx);
    HeadOfTodo(V, sweep, tx.locks);
    ReapsSelected(c, sweep.pass, V[id], sweep.now);
    var r := SqlReapRow(c, sweep.pass, V[id], sweep.now);
    BasePut(db.rows, tx, id, r);
    if IsFinal(r.task.status) {
      CascadeStart(V, id, r, sweep.now, tx.locks);
    } else {
      ReapsShape(c, sweep.pass, V[id], r, sweep.now);
      IdsPut(db.rows, V, id, r);
      TodoPut(V, Rest(sweep), tx.locks, id, r);
      var st := Stage(id, sweep.pass, sweep.now, r, [], Base(tx), tx.rows[id := r]);
      StagesAppend(c, db.rows, tx, st, tx.locks);
    }
  }

  lemma ReapsSelected(c: Config, pass: nat, r: Rec, now: int)
    requires Selected(r, pass, now) && pass <= 1
    ensures ReapsRow(c, pass, r, SqlReapRow(c, pass, r, now), now)
  {}

  lemma BasePut(rows: Recs, tx: Tx, id: Id, r: Rec)
    requires Base(tx).Keys <= rows.Keys * tx.locks && id in rows + Base(tx)
    ensures id in rows && rows + Base(tx)[id := r] == (rows + Base(tx))[id := r]
  {}

  lemma EndStageKept(c: Config, db: Db, act: Action, tx: Tx, tx': Tx)
    requires TxOk(c, db.rows, tx) && act.EndStage? && SweepStep(c, db, act, tx, tx')
    ensures TxOk(c, db.rows, tx')
  {
    hide StagesOk, TodoOk, Cascaded, ReapsRow, AllSameIds, NotInTodo;
    var g, V, rest := tx.prog, db.rows + Base(tx), tx.prog.rest.value;
    BaseIds(c, db.rows, tx);
    RootIds(c, g, V, Done(g), NowOf(g.op), View(db.rows, tx), tx.locks);
    NoKidsLeft(db.rows, g);
    CascadedIds(V, g.root, g.r, g.work, rest.now, View(db.rows, tx), tx.locks);
    AllIdsTrans(db.rows, V, View(db.rows, tx));
    CascadedFinal(V, g.root, g.r, g.work, {}, rest.now, View(db.rows, tx), tx.locks);
    TodoCascaded(V, g.root, g.r, g.work, rest.now, View(db.rows, tx), rest, tx.locks);
    var st := Stage(g.root, rest.pass, rest.now, g.r, g.work, Base(tx), tx.rows);
    assert rest.pass != 2 by { PassOfLease(c, rest.pass, V[g.root], g.r, rest.now); }
    assert StageOk(c, db.rows, st, tx.locks) by { BaseKeys(db.rows, tx); }
    StagesAppend(c, db.rows, tx, st, tx.locks);
  }

  lemma PassOfLease(c: Config, pass: nat, r: Rec, r': Rec, now: int)
    requires ReapsRow(c, pass, r, r', now)
    ensures pass <= 1
  {}

  lemma BaseKeys(rows: Recs, tx: Tx)
    requires Base(tx).Keys <= rows.Keys * tx.locks
    ensures (rows + Base(tx)).Keys == rows.Keys
  {}

  lemma NoKidsLeft(rows: Recs, g: Prog)
    requires g.Cascading? && KidsKnown(rows, g) && g.v == |g.work|
    ensures g.kids.None? && Done(g) == {}
  {}

  lemma CascadedFinal(V: Recs, root: Id, r: Rec, work: seq<Id>, done: set<Id>, now: int, view: Recs, locks: set<Id>)
    requires Cascaded(V, root, r, work, |work|, done, now, view, locks)
    ensures IsFinal(r.task.status) && root in V && view.Keys == V.Keys
  {}

  lemma PassKept(c: Config, db: Db, act: Action, tx: Tx, tx': Tx)
    requires TxOk(c, db.rows, tx) && (act.NextPass? || act.ListBlocked?) && SweepStep(c, db, act, tx, tx')
    ensures TxOk(c, db.rows, tx')
  {
    hide StagesOk, Selected;
  }

  // ---- the repair pass ----

  lemma LockBlockedKept(c: Config, db: Db, act: Action, tx: Tx, tx': Tx)
    requires TxOk(c, db.rows, tx) && act.LockBlocked? && SweepStep(c, db, act, tx, tx')
    ensures TxOk(c, db.rows, tx')
  {
    hide StagesOk, Selected;
    StagesMore(c, db.rows, tx.stages, tx.locks, tx'.locks);
  }

  lemma ReadParentKept(c: Config, db: Db, act: Action, tx: Tx, tx': Tx)
    requires TxOk(c, db.rows, tx) && act.ReadParent? && SweepStep(c, db, act, tx, tx')
    ensures TxOk(c, db.rows, tx')
  {
    hide StagesOk, Selected;
    if tx'.prog.Mending? {
      var V, deps := db.rows + Base(tx), (db.rows + Base(tx))[tx.prog.id].task.dependsOn;
      forall j | 0 <= j < |tx'.prog.seen| ensures SeenOk(V, deps, tx'.prog.seen, j) {
        if j < |tx.prog.seen| { assert SeenOk(V, deps, tx.prog.seen, j); }
      }
    }
  }

  /** Finished rows of the reaper leave every count exact. */
  lemma {:induction false} StagesGraph(c: Config, rows: Recs, stages: seq<Stage>, locks: set<Id>, k: nat)
    requires GraphInv(rows) && StagesOk(c, rows, stages, locks) && k <= |stages|
    ensures GraphInv(At(rows, stages, k))
  {
    hide GraphInv, StageOk;
    if k == 0 {
      assert rows + map[] == rows;
    } else {
      StagesGraph(c, rows, stages, locks, k - 1);
      assert StageOk(c, rows, stages[k - 1], locks) && Chained(stages, k - 1);
      StageGraph(c, rows, stages[k - 1], locks);
    }
  }

  /** The rows as the reaper sees them after k finished rows. */
  function At(rows: Recs, stages: seq<Stage>, k: nat): Recs
    requires k <= |stages|
  {
    rows + if k == 0 then map[] else stages[k - 1].after
  }

  lemma StageGraph(c: Config, rows: Recs, st: Stage, locks: set<Id>)
    requires StageOk(c, rows, st, locks) && GraphInv(rows + st.before)
    ensures GraphInv(rows + st.after)
  {
    hide GraphInv, ReapsRow, CascadeLoop.Progress, HeardLocked, AllSameIds;
    var V, V' := rows + st.before, rows + st.after;
    ViewPut(rows, st.before, st.id, st.r);
    SamePut(V, st.id);
    if st.pass != 2 {
      ReapsShape(c, st.pass, V[st.id], st.r, st.now);
      if IsFinal(st.r.task.status) {
        EndOne(V, st.id, st.r);
        CascadeLoop.ProgressSettled(V[st.id := st.r], st.id, st.work, st.now, V');
        GraphKept(V, V[st.id := st.r], {st.id}, Elems(st.work) - {st.id}, st.now, V');
      } else {
        GraphPlain(V, st.id, st.r);
      }
    }
  }

  /** Statuses that ended alike decide alike. */
  lemma {:induction false} DecidesAlike(a: seq<ParentState>, b: seq<ParentState>, n: nat)
    requires |a| == |b| && n <= |a|
    requires forall j :: 0 <= j < |a| ==> a[j].id == b[j].id && SameEnd(a[j].status, b[j].status)
    ensures Mentioned(a, n) == Mentioned(b, n) && Unfinished(a, n) == Unfinished(b, n)
            && NoneDead(a, n) == NoneDead(b, n)
  {
    if n > 0 {
      DecidesAlike(a, b, n - 1);
    }
  }

  /** The repair of a blocked row finds nothing to repair: the parents it read without a lock cannot have ended since,
      because whoever ends one must lock this child first. */
  lemma MendDecision(c: Config, rows: Recs, tx: Tx, d: SubmitDecision)
    requires GraphInv(rows) && StagesOk(c, rows, tx.stages, tx.locks) && tx.prog.Mending? && MendOk(rows, tx)
    requires var r := (rows + Base(tx))[tx.prog.id];
             |tx.prog.seen| == |r.task.dependsOn| && Decides(tx.prog.seen, r.task.policy, d)
    ensures d.status.Blocked? && d.pendingParents == (rows + Base(tx))[tx.prog.id].pendingParents
  {
    hide GraphInv, StagesOk, NoneDead, Unfinished, NamesFirstDead, InitialStatus, Waiting, NamesDead, StatusOf;
    var V, id, seen := rows + Base(tx), tx.prog.id, tx.prog.seen;
    var r := V[id];
    StagesGraph(c, rows, tx.stages, tx.locks, |tx.stages|);
    assert GraphInv(V);
    var table := seq(|seen|, j requires 0 <= j < |seen| => TableEntry(V, r.task.dependsOn, seen, j));
    forall j | 0 <= j < |seen|
      ensures r.task.dependsOn[j] in V && table[j] == ParentState(r.task.dependsOn[j], StatusOf(V, r.task.dependsOn[j]))
      ensures table[j].id == seen[j].id && SameEnd(table[j].status, seen[j].status)
    {
      assert SeenOk(V, r.task.dependsOn, seen, j);
    }
    assert FromTable(V, r.task.dependsOn, table);
    DecidesAlike(table, seen, |seen|);
    BlockedDecision(V, id, table, d);
  }

  ghost function TableEntry(V: Recs, deps: seq<Id>, seen: seq<ParentState>, j: nat): ParentState
    requires j < |seen| && |seen| == |deps|
  {
    if deps[j] in V then ParentState(deps[j], StatusOf(V, deps[j])) else seen[j]
  }

  lemma BlockedDecision(V: Recs, id: Id, table: seq<ParentState>, d: SubmitDecision)
    requires GraphInv(V) && id in V && StatusOf(V, id).Blocked? && FromTable(V, V[id].task.dependsOn, table)
    requires d.status.Canceled? <==> !V[id].task.policy.IgnoreParentFail? && !NoneDead(table, |table|)
    requires !d.status.Canceled? ==> d.pendingParents == |Unfinished(table, |table|)|
    requires !d.status.Canceled? ==> d.status == if d.pendingParents > 0 then Blocked else Pending
    ensures d.status.Blocked? && d.pendingParents == V[id].pendingParents
  {
    hide GraphInv, Waiting, NoneDead, Unfinished, AnyDead;
    var deps, ps := V[id].task.dependsOn, Parents(V[id]);
    AheadOf(V, id);
    NoneDeadFromTable(V, deps, table, |deps|);
    assert deps[..|deps|] == deps;
    forall p ensures p in Unfinished(table, |table|) <==> p in Waiting(V, ps) {
      MentionsFromTable(V, deps, table, |deps|, p);
      WaitingMember(V, ps, p);
    }
    assert Unfinished(table, |table|) == Waiting(V, ps);
    if !V[id].task.policy.IgnoreParentFail? {
      forall p | p in deps ensures !Dead(StatusOf(V, p)) {
        NotDead(V, ps, p);
      }
    }
  }

  lemma WaitingMember(V: Recs, ps: set<Id>, p: Id)
    ensures p in Waiting(V, ps) <==> p in ps && p in V && !IsFinal(StatusOf(V, p))
  {}

  lemma NotDead(V: Recs, ps: set<Id>, p: Id)
    requires !AnyDead(V, ps) && p in ps && p in V
    ensures !Dead(StatusOf(V, p))
  {}

  lemma AheadOf(V: Recs, id: Id)
    requires GraphInv(V) && id in V && StatusOf(V, id).Blocked?
    ensures var w := Waiting(V, Parents(V[id])); w != {} && V[id].pendingParents == |w| && |w| >= 1
    ensures !V[id].task.policy.IgnoreParentFail? ==> !AnyDead(V, Parents(V[id]))
  {
    assert NodeOk(V, id);
  }

  lemma WriteMendKept(c: Config, db: Db, act: Action, tx: Tx, tx': Tx)
    requires GraphInv(db.rows) && TxOk(c, db.rows, tx) && act.WriteMend? && SweepStep(c, db, act, tx, tx')
    ensures TxOk(c, db.rows, tx')
  {
    hide GraphInv, StagesOk, Decides, SqlCancelRow, TodoOk, AllSameIds, ReapsRow, Cascaded;
    var V, id := db.rows + Base(tx), tx.prog.id;
    MendDecision(c, db.rows, tx, act.d);
    BaseIds(c, db.rows, tx);
    var r := V[id];
    BasePut(db.rows, tx, id, r);
    assert V[id := r] == V;
    var st := Stage(id, 2, tx.prog.sweep.now, r, [], Base(tx), tx.rows[id := r]);
    StagesAppend(c, db.rows, tx, st, tx.locks);
    RepairTodo(V, tx.prog.sweep, tx.locks);
  }

  lemma RepairTodo(V: Recs, sweep: Sweep, locks: set<Id>)
    requires sweep.pass == 2
    ensures TodoOk(V, sweep, locks)
  {}
}
