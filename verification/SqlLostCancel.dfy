/** An interleaving of the SQL reaper with a cancel in which the accepted cancel is lost. */
module SqlLostCancel {
  import opened Model
  import opened Deps
  import opened Spec
  import opened Invariants
  import opened SqlProtocol
  import opened SqlHistory
  import opened SqlRuns

  ghost predicate Path(c: Config, dbs: seq<Db>, acts: seq<Action>) {
    |dbs| == |acts| + 1 && forall n :: 0 <= n < |acts| ==> Next(c, dbs[n], acts[n], dbs[n + 1])
  }

  lemma PathOne(c: Config, a: Db, act: Action, b: Db)
    requires Next(c, a, act, b)
    ensures Path(c, [a, b], [act])
  {
    hide Next;
  }

  lemma PathJoin(c: Config, a: seq<Db>, p: seq<Action>, b: seq<Db>, q: seq<Action>)
    requires Path(c, a, p) && Path(c, b, q) && a[|p|] == b[0]
    ensures Path(c, a + b[1..], p + q)
  {
    hide Next;
    var dbs, acts := a + b[1..], p + q;
    forall n | 0 <= n < |acts| ensures Next(c, dbs[n], acts[n], dbs[n + 1]) {
      if n < |p| {
        assert Next(c, a[n], p[n], a[n + 1]);
      } else {
        assert Next(c, b[n - |p|], q[n - |p|], b[n - |p| + 1]);
      }
    }
  }

  /** The same database with transaction i at tx. */
  function With(db: Db, i: nat, tx: Tx): Db {
    db.(txs := db.txs[i := tx])
  }

  lemma BeginNext(c: Config, db: Db, i: nat, prog: Prog)
    requires i !in db.txs && Fresh(prog)
    ensures Path(c, [db, With(db, i, Tx({}, map[], {}, prog, []))], [Begin(i, prog)])
  {
    PathOne(c, db, Begin(i, prog), With(db, i, Tx({}, map[], {}, prog, [])));
  }

  lemma StatementNext(c: Config, db: Db, i: nat, tx: Tx, act: Action, tx': Tx)
    requires act.i == i && !act.Begin? && !act.Commit? && !act.Abort? && TxStep(c, With(db, i, tx), act, tx, tx')
    ensures Path(c, [With(db, i, tx), With(db, i, tx')], [act])
  {
    hide TxStep;
    var a, b := With(db, i, tx), With(db, i, tx');
    assert a.txs[i := tx'] == b.txs;
    PathOne(c, a, act, b);
  }

  lemma CommitNext(c: Config, db: Db, i: nat, tx: Tx)
    requires i !in db.txs && Finished(tx.prog) && tx.edges == {}
    ensures Path(c, [With(db, i, tx), db.(rows := db.rows + tx.rows)], [Commit(i)])
  {
    var a, b := With(db, i, tx), db.(rows := db.rows + tx.rows);
    assert a.txs - {i} == b.txs && a.edges + {} == b.edges;
    PathOne(c, a, Commit(i), b);
  }

  function Marked(r: Rec): Rec {
    r.(cancelRequested := true)
  }

  // ---- one row ----

  lemma RowLocks(c: Config, db: Db, j: nat, op: Op, x: Id)
    requires x in db.rows && Free(db, j, x) && Picks(db, j, op, x)
    ensures CallStep(c, db, LockRow(j), Tx({}, map[], {}, Starting(op, x), []), Tx({x}, map[], {}, Starting(op, x), []))
  {
    assert {} + {x} == {x};
  }

  lemma RowWrites(c: Config, db: Db, j: nat, op: Op, x: Id, r: Rec)
    requires x in db.rows && Acts(c, op, x, db.rows[x], r) && !IsFinal(r.task.status)
    ensures CallStep(c, db, WriteRow(j, r), Tx({x}, map[], {}, Starting(op, x), []),
                     Tx({x}, map[x := r], {}, Written(op, x, r), []))
  {}

  lemma FreeWith(db: Db, j: nat, tx: Tx, x: Id)
    ensures Free(With(db, j, tx), j, x) <==> Free(db, j, x)
  {
    var db' := With(db, j, tx);
    forall k | k != j ensures (k in db'.txs <==> k in db.txs) && (k in db.txs ==> db'.txs[k] == db.txs[k]) {}
    assert Free(db', j, x) ==> forall k :: k in db.txs && k != j ==> k in db'.txs && x !in db'.txs[k].locks;
  }

  lemma PicksWith(db: Db, j: nat, tx: Tx, op: Op, x: Id)
    requires Picks(db, j, op, x)
    ensures Picks(With(db, j, tx), j, op, x)
  {
    hide Free;
    forall y ensures Free(With(db, j, tx), j, y) <==> Free(db, j, y) {
      FreeWith(db, j, tx, y);
    }
  }

  /** A call on a row that nobody holds goes through when its guard holds. */
  lemma RowCommits(c: Config, db: Db, j: nat, op: Op, x: Id, r: Rec) returns (dbs: seq<Db>, acts: seq<Action>)
    requires j !in db.txs && x in db.rows && Free(db, j, x)
    requires Acts(c, op, x, db.rows[x], r) && !IsFinal(r.task.status) && Picks(db, j, op, x)
    ensures Path(c, dbs, acts) && |dbs| == 5 && |acts| == 4 && dbs[0] == db && acts[3] == Commit(j)
    ensures j in dbs[3].txs && dbs[3].txs[j].prog == Written(op, x, r)
    ensures dbs[4] == db.(rows := db.rows[x := r])
  {
    hide Path, CallStep, CascadeStep, SweepStep, Free, RowAfter, Picks;
    var t1, t2 := Tx({}, map[], {}, Starting(op, x), []), Tx({x}, map[], {}, Starting(op, x), []);
    var t3 := Tx({x}, map[x := r], {}, Written(op, x, r), []);
    BeginNext(c, db, j, t1.prog);
    FreeWith(db, j, t1, x);
    PicksWith(db, j, t1, op, x);
    RowLocks(c, With(db, j, t1), j, op, x);
    StatementNext(c, db, j, t1, LockRow(j), t2);
    RowWrites(c, With(db, j, t2), j, op, x, r);
    StatementNext(c, db, j, t2, WriteRow(j, r), t3);
    CommitNext(c, db, j, t3);
    assert db.rows + map[x := r] == db.rows[x := r];
    dbs, acts := Join4(c, db, With(db, j, t1), With(db, j, t2), With(db, j, t3), db.(rows := db.rows + t3.rows),
                       Begin(j, t1.prog), LockRow(j), WriteRow(j, r), Commit(j));
  }

  lemma Join4(c: Config, a: Db, b: Db, d: Db, e: Db, f: Db, p: Action, q: Action, r: Action, s: Action)
    returns (dbs: seq<Db>, acts: seq<Action>)
    requires Path(c, [a, b], [p]) && Path(c, [b, d], [q]) && Path(c, [d, e], [r]) && Path(c, [e, f], [s])
    ensures dbs == [a, b, d, e, f] && acts == [p, q, r, s] && Path(c, dbs, acts)
  {
    hide Path;
    PathJoin(c, [a, b], [p], [b, d], [q]);
    assert [a, b] + [b, d][1..] == [a, b, d] && [p] + [q] == [p, q];
    PathJoin(c, [a, b, d], [p, q], [d, e], [r]);
    assert [a, b, d] + [d, e][1..] == [a, b, d, e] && [p, q] + [r] == [p, q, r];
    PathJoin(c, [a, b, d, e], [p, q, r], [e, f], [s]);
    assert [a, b, d, e] + [e, f][1..] == [a, b, d, e, f] && [p, q, r] + [s] == [p, q, r, s];
    dbs, acts := [a, b, d, e, f], [p, q, r, s];
  }

  // ---- the reaper ----

  /** x is the only row that a reaper or a repair pass finds, and it carries no mark. */
  ghost predicate Alone(rows: Recs, x: Id, now: int) {
    x in rows && Expired(rows[x], now)
    && forall y :: y in rows ==> (y != x ==> !Expired(rows[y], now)) && !StatusOf(rows, y).Blocked?
  }

  function Reaper(now: int, pass: nat, todo: Option<seq<Id>>): Tx {
    Tx({}, map[], {}, Sweeping(Sweep(now, pass, todo)), [])
  }

  lemma NothingMarked(c: Config, db: Db, i: nat, x: Id, now: int)
    requires Alone(db.rows, x, now) && !db.rows[x].cancelRequested
    ensures SweepStep(c, db, LockExpired(i, []), Reaper(now, 0, None), Reaper(now, 0, Some([])))
  {
    assert ParentSet([]) == {};
    assert View(db.rows, Reaper(now, 0, None)) == db.rows;
  }

  lemma FirstPassEnds(c: Config, db: Db, i: nat, now: int)
    ensures SweepStep(c, db, NextPass(i), Reaper(now, 0, Some([])), Reaper(now, 1, None))
  {}

  /** The reaper's first select finds no marked row. */
  lemma ReaperOpens(c: Config, db: Db, i: nat, x: Id, now: int) returns (dbs: seq<Db>, acts: seq<Action>)
    requires i !in db.txs && Alone(db.rows, x, now) && !db.rows[x].cancelRequested
    ensures Path(c, dbs, acts) && |dbs| == 4 && |acts| == 3 && dbs[0] == db
            && dbs[3] == With(db, i, Reaper(now, 1, None))
  {
    hide Path, CallStep, CascadeStep, SweepStep;
    var t1, t2, t3 := Reaper(now, 0, None), Reaper(now, 0, Some([])), Reaper(now, 1, None);
    BeginNext(c, db, i, t1.prog);
    NothingMarked(c, With(db, i, t1), i, x, now);
    StatementNext(c, db, i, t1, LockExpired(i, []), t2);
    FirstPassEnds(c, With(db, i, t2), i, now);
    StatementNext(c, db, i, t2, NextPass(i), t3);
    var d1, d2, d3 := With(db, i, t1), With(db, i, t2), With(db, i, t3);
    PathJoin(c, [db, d1], [Begin(i, t1.prog)], [d1, d2], [LockExpired(i, [])]);
    assert [db, d1] + [d1, d2][1..] == [db, d1, d2];
    PathJoin(c, [db, d1, d2], [Begin(i, t1.prog)] + [LockExpired(i, [])], [d2, d3], [NextPass(i)]);
    assert [db, d1, d2] + [d2, d3][1..] == [db, d1, d2, d3];
    dbs, acts := [db, d1, d2, d3], [Begin(i, t1.prog)] + [LockExpired(i, [])] + [NextPass(i)];
  }

  function Reaped(now: int, x: Id, r: Rec, pass: nat, todo: Option<seq<Id>>): Tx {
    Tx({x}, map[x := r], {}, Sweeping(Sweep(now, pass, todo)), [Stage(x, 1, now, r, [], map[], map[x := r])])
  }

  lemma ReaperSelects(c: Config, db: Db, i: nat, x: Id, now: int)
    requires Alone(db.rows, x, now) && Free(db, i, x)
    ensures SweepStep(c, db, LockExpired(i, [x]), Reaper(now, 1, None),
                      Tx({x}, map[], {}, Sweeping(Sweep(now, 1, Some([x]))), []))
  {
    assert ParentSet([x]) == {x} && {} + {x} == {x};
    assert View(db.rows, Reaper(now, 1, None)) == db.rows;
  }

  lemma ReaperWrites(c: Config, db: Db, i: nat, x: Id, now: int)
    requires x in db.rows && db.rows[x].task.leaseLost + 1 < c.leaseLostMax
    ensures SweepStep(c, db, WriteReap(i), Tx({x}, map[], {}, Sweeping(Sweep(now, 1, Some([x]))), []),
                      Reaped(now, x, SqlReapRow(c, 1, db.rows[x], now), 1, Some([])))
  {
    var tx := Tx({x}, map[], {}, Sweeping(Sweep(now, 1, Some([x]))), []);
    assert View(db.rows, tx) == db.rows;
    assert [x][1..] == [];
    assert map[][x := SqlReapRow(c, 1, db.rows[x], now)] == map[x := SqlReapRow(c, 1, db.rows[x], now)];
  }

  lemma ReaperCloses(c: Config, db: Db, i: nat, x: Id, r: Rec, now: int)
    requires Alone(db.rows, x, now) && r.task.status.Pending?
    ensures SweepStep(c, db, ListBlocked(i, []), Reaped(now, x, r, 2, None), Reaped(now, x, r, 2, Some([])))
  {}

  lemma SecondPassEnds(c: Config, db: Db, i: nat, x: Id, r: Rec, now: int)
    ensures SweepStep(c, db, NextPass(i), Reaped(now, x, r, 1, Some([])), Reaped(now, x, r, 2, None))
  {}

  lemma BelowCap(c: Config, r: Rec, now: int)
    requires r.task.leaseLost + 1 < c.leaseLostMax
    ensures SqlReapRow(c, 1, r, now).task.status.Pending? && !SqlReapRow(c, 1, r, now).cancelRequested
  {}

  /** The reaper's second select takes an expired row whatever its mark says, and the repair pass finds nothing. */
  lemma ReaperTakes(c: Config, db: Db, i: nat, x: Id, now: int) returns (dbs: seq<Db>, acts: seq<Action>)
    requires i !in db.txs && Alone(db.rows, x, now) && Free(db, i, x)
    requires db.rows[x].task.leaseLost + 1 < c.leaseLostMax
    ensures Path(c, dbs, acts) && |dbs| == 5 && |acts| == 4 && dbs[0] == With(db, i, Reaper(now, 1, None))
    ensures dbs[4] == With(db, i, Reaped(now, x, SqlReapRow(c, 1, db.rows[x], now), 2, Some([])))
  {
    assert x in db.rows;
    hide Path, CallStep, CascadeStep, SweepStep, Free, SqlReapRow, Alone;
    var r := SqlReapRow(c, 1, db.rows[x], now);
    BelowCap(c, db.rows[x], now);
    var t0, t1 := Reaper(now, 1, None), Tx({x}, map[], {}, Sweeping(Sweep(now, 1, Some([x]))), []);
    var t2, t3, t4 := Reaped(now, x, r, 1, Some([])), Reaped(now, x, r, 2, None), Reaped(now, x, r, 2, Some([]));
    FreeWith(db, i, t0, x);
    ReaperSelects(c, With(db, i, t0), i, x, now);
    StatementNext(c, db, i, t0, LockExpired(i, [x]), t1);
    ReaperWrites(c, With(db, i, t1), i, x, now);
    StatementNext(c, db, i, t1, WriteReap(i), t2);
    SecondPassEnds(c, With(db, i, t2), i, x, r, now);
    StatementNext(c, db, i, t2, NextPass(i), t3);
    ReaperCloses(c, With(db, i, t3), i, x, r, now);
    StatementNext(c, db, i, t3, ListBlocked(i, []), t4);
    dbs, acts := Join4(c, With(db, i, t0), With(db, i, t1), With(db, i, t2), With(db, i, t3), With(db, i, t4),
                       LockExpired(i, [x]), WriteReap(i), NextPass(i), ListBlocked(i, []));
  }

  lemma ReaperDrops(c: Config, db: Db, i: nat, x: Id, now: int) returns (dbs: seq<Db>, acts: seq<Action>)
    requires i !in db.txs && Alone(db.rows, x, now) && Free(db, i, x)
    requires db.rows[x].task.leaseLost + 1 < c.leaseLostMax
    ensures Path(c, dbs, acts) && |dbs| == 6 && |acts| == 5 && dbs[0] == With(db, i, Reaper(now, 1, None))
    ensures dbs[5].rows == db.rows[x := SqlReapRow(c, 1, db.rows[x], now)]
  {
    assert x in db.rows;
    hide Path, Free, SqlReapRow, Alone;
    var r := SqlReapRow(c, 1, db.rows[x], now);
    var t4 := Reaped(now, x, r, 2, Some([]));
    var a, p := ReaperTakes(c, db, i, x, now);
    CommitNext(c, db, i, t4);
    assert db.rows + map[x := r] == db.rows[x := r];
    var last := db.(rows := db.rows + t4.rows);
    PathJoin(c, a, p, [With(db, i, t4), last], [Commit(i)]);
    assert [With(db, i, t4), last][1..] == [last];
    dbs, acts := a + [last], p + [Commit(i)];
  }

  /** Under SQL an accepted cancel can be lost: when the reaper finds no row but x, which runs with an expired lease,
      and nobody holds it, a cancel that commits between the two selects is answered Ok, and the reaper returns the row
      to pending without the mark. */
  lemma CancelLost(c: Config, db: Db, i: nat, j: nat, x: Id, now: int, t: int) returns (dbs: seq<Db>, acts: seq<Action>)
    requires i !in db.txs && j !in db.txs && i != j && Alone(db.rows, x, now) && !db.rows[x].cancelRequested
    requires db.rows[x].task.leaseLost + 1 < c.leaseLostMax && forall k :: k in db.txs ==> x !in db.txs[k].locks
    ensures Path(c, dbs, acts) && |dbs| == 13 && |acts| == 12 && dbs[0] == db
    ensures acts[6] == Commit(j) && j in dbs[6].txs
            && dbs[6].txs[j].prog == Written(OpCancel(x, t), x, Marked(db.rows[x]))
    ensures x in dbs[7].rows && dbs[7].rows[x] == Marked(db.rows[x])
    ensures x in dbs[12].rows && dbs[12].rows[x].task.status.Pending? && !dbs[12].rows[x].cancelRequested
  {
    hide Path, Next;
    var a, p := ReaperOpens(c, db, i, x, now);
    var b, q := RowCommits(c, a[3], j, OpCancel(x, t), x, Marked(db.rows[x]));
    var marked := db.(rows := db.rows[x := Marked(db.rows[x])]);
    var d, r := ReaperDrops(c, marked, i, x, now);
    BelowCap(c, marked.rows[x], now);
    assert b[4] == With(marked, i, Reaper(now, 1, None));
    PathJoin(c, a, p, b, q);
    var ab, pq := a + b[1..], p + q;
    PathJoin(c, ab, pq, d, r);
    dbs, acts := ab + d[1..], pq + r;
    assert acts[6] == q[3] && dbs[6] == b[3] && dbs[7] == b[4] && dbs[12] == d[5];
  }

  // ---- from the empty database ----

  const Start := Db(map[], {}, map[])

  /** A submission without parents commits at once. */
  lemma EnqueueCommits(c: Config, t: Task, x: Id, t0: int) returns (dbs: seq<Db>, acts: seq<Action>)
    requires NamedRight(t, x) && t.dependsOn == []
    ensures Path(c, dbs, acts) && |dbs| == 4 && |acts| == 3 && dbs[0] == Start
    ensures dbs[3] == Db(map[x := SqlSubmitRow(t, x, SubmitDecision(Pending, 0, NoError), t0)], {}, map[])
  {
    hide Path, CascadeStep, SweepStep, SqlSubmitRow;
    var d := SubmitDecision(Pending, 0, NoError);
    var row := SqlSubmitRow(t, x, d, t0);
    var t1 := Tx({}, map[], {}, Reading(t, x, t0, [], []), []);
    var t2 := Tx({x}, map[x := row], {}, Linking(t, x, t0, [], 0), []);
    BeginNext(c, Start, 0, t1.prog);
    assert {} + {x} == {x};
    assert CallStep(c, With(Start, 0, t1), Insert(0, d), t1, t2);
    StatementNext(c, Start, 0, t1, Insert(0, d), t2);
    CommitNext(c, Start, 0, t2);
    assert map[] + map[x := row] == map[x := row];
    var d1, d2, d3 := With(Start, 0, t1), With(Start, 0, t2), Start.(rows := Start.rows + t2.rows);
    PathJoin(c, [Start, d1], [Begin(0, t1.prog)], [d1, d2], [Insert(0, d)]);
    assert [Start, d1] + [d1, d2][1..] == [Start, d1, d2];
    PathJoin(c, [Start, d1, d2], [Begin(0, t1.prog)] + [Insert(0, d)], [d2, d3], [Commit(0)]);
    assert [Start, d1, d2] + [d2, d3][1..] == [Start, d1, d2, d3];
    dbs, acts := [Start, d1, d2, d3], [Begin(0, t1.prog)] + [Insert(0, d)] + [Commit(0)];
  }

  /** A claim picks the only row there is when that is due. */
  lemma PicksOnly(db: Db, j: nat, op: Op, x: Id)
    requires op.OpClaim? && db.rows.Keys == {x} && DueFor(db.rows[x], op.queues, op.now)
    ensures Picks(db, j, op, x)
  {}

  /** It happens: any task without parents, submitted to an empty database and claimed, whose worker goes silent, loses
      its cancel this way as soon as the reaper and the cancel meet. */
  lemma CancelLostFromStart(c: Config, t: Task, x: Id, token: Token, t0: int, t1: int, now: int, t2: int)
    returns (dbs: seq<Db>, acts: seq<Action>)
    requires NamedRight(t, x) && t.dependsOn == [] && token != "" && t.leaseLost + 1 < c.leaseLostMax
    requires (if t.runAt == 0 then t0 else t.runAt) <= t1 && t1 + TtlFor(c, t.queue) < now
    ensures IsHistory(c, dbs, acts) && |acts| == 19 && CommitAt(dbs, acts, 13) && OpAt(dbs, acts, 13) == OpCancel(x, t2)
    ensures x in dbs[14].rows && dbs[14].rows[x].task.status.Running? && dbs[14].rows[x].cancelRequested
    ensures x in dbs[19].rows && dbs[19].rows[x].task.status.Pending? && !dbs[19].rows[x].cancelRequested
  {
    hide Path, Next, OpOf, Picks;
    var a, p := EnqueueCommits(c, t, x, t0);
    var row := SqlSubmitRow(t, x, SubmitDecision(Pending, 0, NoError), t0);
    var op := OpClaim({t.queue}, token, t1, Some(x));
    var held := SqlClaimRow(c, row, token, t1);
    PicksOnly(a[3], 0, op, x);
    var b, q := RowCommits(c, a[3], 0, op, x, held);
    var d, r := CancelLost(c, b[4], 0, 1, x, now, t2);
    PathJoin(c, a, p, b, q);
    var ab, pq := a + b[1..], p + q;
    PathJoin(c, ab, pq, d, r);
    dbs, acts := ab + d[1..], pq + r;
    HistoryOf(c, dbs, acts);
    assert acts[13] == r[6] && dbs[13] == d[6] && dbs[14] == d[7] && dbs[19] == d[12];
    WrittenOp(dbs[13].rows, dbs[13].txs[1]);
  }

  lemma HistoryOf(c: Config, dbs: seq<Db>, acts: seq<Action>)
    requires Path(c, dbs, acts) && dbs[0] == Start
    ensures IsHistory(c, dbs, acts)
  {
    hide Next;
  }

  lemma WrittenOp(rows: Recs, tx: Tx)
    requires tx.prog.Written?
    ensures OpOf(rows, tx) == Stored(tx.prog.op)
  {}
}
