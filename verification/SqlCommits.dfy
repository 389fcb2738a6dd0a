/** Commits: what one transaction commits is a reference step on the rows committed at that moment, and no other open
    transaction notices. */
module SqlCommits {
  import opened Model
  import opened Deps
  import opened Cascade
  import CascadeLoop
  import opened Spec
  import opened Graph
  import opened Invariants
  import opened SqlProtocol
  import opened SqlInvariant
  import opened SqlReaper

  // ---------------------------------------------------------------------------------------------
  // Statements
  // ---------------------------------------------------------------------------------------------

  lemma CascadeKept(c: Config, db: Db, act: Action, tx: Tx, tx': Tx)
    requires EdgesExact(db.rows, db.edges) && TxOk(c, db.rows, tx) && CascadeStep(db, act, tx, tx')
    ensures TxOk(c, db.rows, tx')
  {
    hide CascadeOk, StagesOk, EdgesExact, VisitChild, CascadeLoop.Extend, StageClock;
    ClockSame(tx.prog, tx'.prog, tx.stages);
    match act {
      case ReadKids(_, _) => ReadKidsKept(c, db, act, tx, tx');
      case LockKid(_) =>
        LockKidKept(c, db, act, tx, tx');
        StagesMore(c, db.rows, tx.stages, tx.locks, tx'.locks);
      case VisitKid(_) => VisitKept(c, db, act, tx, tx');
      case NextParent(_) => NextKept(c, db, act, tx, tx');
      case _ =>
    }
  }

  lemma ClockSame(a: Prog, b: Prog, stages: seq<Stage>)
    requires a.Cascading? && b.Cascading? && a.rest == b.rest && StageClock(a, stages)
    ensures StageClock(b, stages)
  {}

  lemma CallKept(c: Config, db: Db, act: Action, tx: Tx, tx': Tx)
    requires RowsNamed(db.rows) && TxOk(c, db.rows, tx) && CallStep(c, db, act, tx, tx')
    ensures TxOk(c, db.rows, tx')
  {
    hide TxOk, Acts, Decides, Unreplayed, KeyFree, RowsNamed;
    match act {
      case LockParent(_) => ReadingKept(c, db, act, tx, tx');
      case Insert(_, _) => InsertKept(c, db, act, tx, tx');
      case InsertEdge(_) => LinkingKept(c, db, act, tx, tx');
      case LockTarget(_, _) => ReplayKept(c, db, act, tx, tx');
      case CheckReplayed(_) => ReplayKept(c, db, act, tx, tx');
      case InsertCopy(_) => ReplayKept(c, db, act, tx, tx');
      case LockRow(_) => RowKept(c, db, act, tx, tx');
      case WriteRow(_, _) => RowKept(c, db, act, tx, tx');
      case _ =>
    }
  }

  lemma SweepKept(c: Config, db: Db, act: Action, tx: Tx, tx': Tx)
    requires GraphInv(db.rows) && TxOk(c, db.rows, tx) && SweepStep(c, db, act, tx, tx')
    ensures TxOk(c, db.rows, tx')
  {
    hide TxOk, GraphInv, Decides, SqlReapRow, SqlCancelRow, Selected;
    match act {
      case LockExpired(_, _) => LockExpiredKept(c, db, act, tx, tx');
      case WriteReap(_) => WriteReapKept(c, db, act, tx, tx');
      case EndStage(_) => EndStageKept(c, db, act, tx, tx');
      case NextPass(_) => PassKept(c, db, act, tx, tx');
      case ListBlocked(_, _) => PassKept(c, db, act, tx, tx');
      case LockBlocked(_) => LockBlockedKept(c, db, act, tx, tx');
      case ReadParent(_) => ReadParentKept(c, db, act, tx, tx');
      case WriteMend(_, _) => WriteMendKept(c, db, act, tx, tx');
      case _ =>
    }
  }

  /** A statement locks only free rows, and enters only a free key. */
  lemma StepLocks(c: Config, db: Db, act: Action, tx: Tx, tx': Tx)
    requires TxStep(c, db, act, tx, tx')
    ensures forall x :: x in tx'.locks && x !in tx.locks ==> Free(db, act.i, x)
    ensures KeyHeld(tx'.prog) != "" ==>
              KeyHeld(tx'.prog) == KeyHeld(tx.prog) || (act.Insert? && KeyFree(db, act.i, KeyHeld(tx'.prog)))
  {
    hide Acts, Decides, VisitChild, SqlReapRow, SqlSubmitRow, SqlReplayRow, SqlCancelRow, Selected, CascadeLoop.Extend,
         NoHead, Unreplayed;
    if CallStep(c, db, act, tx, tx') {
      CallLocks(c, db, act, tx, tx');
    } else if CascadeStep(db, act, tx, tx') {
      CascadeLocks(db, act, tx, tx');
    } else {
      SweepLocks(c, db, act, tx, tx');
    }
  }

  lemma CallLocks(c: Config, db: Db, act: Action, tx: Tx, tx': Tx)
    requires CallStep(c, db, act, tx, tx')
    ensures forall x :: x in tx'.locks && x !in tx.locks ==> Free(db, act.i, x)
    ensures KeyHeld(tx'.prog) != "" ==>
              KeyHeld(tx'.prog) == KeyHeld(tx.prog) || (act.Insert? && KeyFree(db, act.i, KeyHeld(tx'.prog)))
  {
    hide Acts, Decides, SqlSubmitRow, SqlReplayRow, NoHead, Unreplayed, Free;
  }

  lemma CascadeLocks(db: Db, act: Action, tx: Tx, tx': Tx)
    requires CascadeStep(db, act, tx, tx')
    ensures (forall x :: x in tx'.locks && x !in tx.locks ==> Free(db, act.i, x)) && KeyHeld(tx'.prog) == ""
  {
    hide VisitChild, CascadeLoop.Extend, Free;
  }

  lemma SweepLocks(c: Config, db: Db, act: Action, tx: Tx, tx': Tx)
    requires SweepStep(c, db, act, tx, tx')
    ensures (forall x :: x in tx'.locks && x !in tx.locks ==> Free(db, act.i, x)) && KeyHeld(tx'.prog) == ""
  {
    hide Decides, SqlReapRow, SqlCancelRow, Selected, Free;
  }

  // ---------------------------------------------------------------------------------------------
  // What a commit does to the rows
  // ---------------------------------------------------------------------------------------------

  /** One row of the reaper as a step on the rows. */
  ghost predicate StageStep(c: Config, V: Recs, st: Stage, V': Recs) {
    if st.pass == 2 then V' == V
    else st.id in V && ReapsRow(c, st.pass, V[st.id], st.r, st.now)
         && if IsFinal(st.r.task.status) then Outcome(V[st.id := st.r], {st.id}, st.now, V') else V' == V[st.id := st.r]
  }

  /** The k-th row of a reap with this clock reading. */
  ghost predicate StageAt(c: Config, rows: Recs, stages: seq<Stage>, now: int, k: nat)
    requires k < |stages|
  {
    stages[k].now == now && StageStep(c, At(rows, stages, k), stages[k], At(rows, stages, k + 1))
  }

  /** The committed rows change as the reference broker would change them, from their value at commit time. */
  ghost predicate Serial(c: Config, rows: Recs, tx: Tx, rows': Recs) {
    match tx.prog
    case Linking(t, id, now, _, _) =>
      NamedRight(t, id) && id !in rows && ParentSet(t.dependsOn) <= rows.Keys
      && (t.businessKey != "" ==> NoHead(rows, t.businessKey))
      && id in rows' && Submitted(rows, t, id, now, rows'[id]) && rows' == rows[id := rows'[id]]
    case Copied(req, gen, now, target) =>
      CopyOk(rows, {target}, req, gen, target) && Unreplayed(rows, target) && gen !in rows
      && IsFinal(StatusOf(rows, target))
      && (StatusOf(rows, target).Completed? ==> req.allowCompleted)
      && rows' == rows[gen := ReplayRec(rows[target].task, gen, req.payload, now)]
    case Cascading(op, root, r, _, _, _, _, _) =>
      root in rows && Acts(c, op, root, rows[root], r) && IsFinal(r.task.status)
      && Outcome(rows[root := r], {root}, NowOf(op), rows')
    case Written(op, id, r) =>
      id in rows && Acts(c, op, id, rows[id], r) && !IsFinal(r.task.status) && rows' == rows[id := r]
    case Sweeping(sweep) =>
      rows' == At(rows, tx.stages, |tx.stages|)
      && forall k :: 0 <= k < |tx.stages| ==> StageAt(c, rows, tx.stages, sweep.now, k)
    case _ => false
  }

  lemma StageIsStep(c: Config, rows: Recs, stages: seq<Stage>, locks: set<Id>, k: nat)
    requires StagesOk(c, rows, stages, locks) && k < |stages|
    ensures StageStep(c, At(rows, stages, k), stages[k], At(rows, stages, k + 1))
  {
    hide ReapsRow, Outcome, CascadeLoop.Progress, HeardLocked, AllSameIds;
    var st := stages[k];
    assert StageOk(c, rows, st, locks) && Chained(stages, k);
    var V, V' := rows + st.before, rows + st.after;
    assert At(rows, stages, k) == V && At(rows, stages, k + 1) == V';
    ViewPut(rows, st.before, st.id, st.r);
    SamePut(V, st.id);
    if st.pass != 2 && IsFinal(st.r.task.status) {
      CascadeLoop.ProgressFinish(V[st.id := st.r], st.id, st.work, st.now, V');
    }
  }

  lemma CommitSweep(c: Config, rows: Recs, tx: Tx)
    requires TxOk(c, rows, tx) && tx.prog.Sweeping?
    ensures Serial(c, rows, tx, rows + tx.rows)
  {
    hide StagesOk, StageStep, TodoOk;
    forall k | 0 <= k < |tx.stages| ensures StageAt(c, rows, tx.stages, tx.prog.sweep.now, k) {
      StageIsStep(c, rows, tx.stages, tx.locks, k);
    }
  }

  lemma CommitCascade(c: Config, rows: Recs, tx: Tx)
    requires tx.prog.Cascading? && CascadeOk(c, rows, tx) && Finished(tx.prog)
    ensures Serial(c, rows, tx, rows + tx.rows)
  {
    hide Acts, Outcome, CascadeLoop.Progress, HeardLocked, TodoOk;
    var g := tx.prog;
    assert rows + map[] == rows;
    NoKidsLeft(rows, g);
    CascadeLoop.ProgressFinish(rows[g.root := g.r], g.root, g.work, NowOf(g.op), View(rows, tx));
  }

  lemma CommitSerial(c: Config, rows: Recs, tx: Tx)
    requires TxOk(c, rows, tx) && Finished(tx.prog)
    ensures Serial(c, rows, tx, rows + tx.rows)
  {
    if tx.prog.Sweeping? {
      hide TxOk, Serial;
      CommitSweep(c, rows, tx);
    } else if tx.prog.Cascading? {
      hide CascadeOk, Serial, StagesOk;
      CommitCascade(c, rows, tx);
    } else {
      hide Submitted, Acts, NoHead, Unreplayed, ReplayRec, StagesOk, Distinct;
      if tx.prog.Linking? {
        DistinctElems(tx.prog.t.dependsOn);
      }
      OneRow(rows, tx.rows);
    }
  }

  lemma OneRow(rows: Recs, own: Recs)
    ensures forall id :: own.Keys == {id} ==> rows + own == rows[id := own[id]]
  {}

  /** Every commit keeps the blocked counts exact. */
  lemma SerialGraph(c: Config, rows: Recs, tx: Tx, rows': Recs)
    requires GraphInv(rows) && Serial(c, rows, tx, rows')
    requires StagesOk(c, rows, tx.stages, tx.locks)
    ensures GraphInv(rows')
  {
    hide GraphInv, Doomed, Acts, NoHead, Unreplayed, StagesOk, StageStep;
    match tx.prog {
      case Linking(t, id, now, _, _) => SubmittedGraph(rows, t, id, now, rows'[id]);
      case Copied(req, gen, now, target) =>
        assert Parents(ReplayRec(rows[target].task, gen, req.payload, now)) == {};
        NoParentsGraph(rows, gen, ReplayRec(rows[target].task, gen, req.payload, now));
      case Cascading(op, root, r, _, _, _, _, _) =>
        ActsShape(c, op, root, rows[root], r);
        EndOne(rows, root, r);
        GraphKept(rows, rows[root := r], {root}, Doomed(rows[root := r], {root}), NowOf(op), rows');
      case Written(op, id, r) =>
        ActsShape(c, op, id, rows[id], r);
        GraphPlain(rows, id, r);
      case Sweeping(_) => StagesGraph(c, rows, tx.stages, tx.locks, |tx.stages|);
      case _ =>
    }
  }

  lemma SubmittedGraph(rows: Recs, t: Task, id: Id, now: int, r: Rec)
    requires GraphInv(rows) && id !in rows && ParentSet(t.dependsOn) <= rows.Keys && Submitted(rows, t, id, now, r)
    ensures GraphInv(rows[id := r])
  {
    hide GraphInv, Waiting, NamesDead, AnyDead;
    assert Parents(r) == ParentSet(t.dependsOn);
    GraphAdded(rows, id, r);
  }

  lemma NoParentsGraph(rows: Recs, id: Id, r: Rec)
    requires GraphInv(rows) && id !in rows && Parents(r) == {} && r.task.status.Pending?
    ensures GraphInv(rows[id := r])
  {
    hide GraphInv;
    assert Waiting(rows, {}) == {} && !AnyDead(rows, {});
    GraphAdded(rows, id, r);
  }

  // ---------------------------------------------------------------------------------------------
  // What a commit is to the other transactions
  // ---------------------------------------------------------------------------------------------

  /** Locked rows stay, links stay, and no new row depends on a locked one. */
  ghost predicate Apart(V: Recs, V': Recs, locks: set<Id>) {
    V.Keys <= V'.Keys
    && (forall x :: x in locks ==> (x in V <==> x in V') && (x in V ==> V'[x] == V[x]))
    && (forall x :: x in V ==> Parents(V'[x]) == Parents(V[x]))
    && (forall x :: x in V' && x !in V ==> Parents(V'[x]) !! locks)
  }

  /** A parent of a locked row has not ended. */
  ghost predicate ParentsLast(rows: Recs, rows': Recs, x: Id)
    requires x in rows
  {
    forall p :: p in Parents(rows[x]) && p in rows ==> p in rows' && SameEnd(StatusOf(rows, p), StatusOf(rows', p))
  }

  ghost predicate Elsewhere(rows: Recs, rows': Recs, locks: set<Id>, key: Key) {
    Apart(rows, rows', locks)
    && (forall x :: x in rows ==> SameIds(rows[x], rows'[x]))
    && (forall x :: x in locks && x in rows ==> ParentsLast(rows, rows', x))
    && (forall x :: x in rows' && x !in rows ==>
          if rows'[x].task.replayOf == "" then key == "" || rows'[x].task.businessKey != key
          else rows'[x].task.replayOf !in locks)
  }

  lemma ApartView(rows: Recs, rows': Recs, own: Recs, locks: set<Id>)
    requires Apart(rows, rows', locks) && own.Keys <= rows.Keys * locks
    requires forall x :: x in own ==> Parents(own[x]) == Parents(rows[x])
    ensures Apart(rows + own, rows' + own, locks)
  {}

  lemma ApartPut(V: Recs, V': Recs, root: Id, r: Rec, locks: set<Id>)
    requires Apart(V, V', locks) && root in V && root in locks && Parents(r) == Parents(V[root])
    ensures Apart(V[root := r], V'[root := r], locks)
  {}

  /** A cascade stays right about the rows other transactions commit meanwhile: they are not among those that
      have heard, and no new child can appear under a locked parent. */
  lemma ProgressStable(pre: Recs, pre': Recs, root: Id, work: seq<Id>, v: nat, done: set<Id>, now: int, recs: Recs,
                       recs': Recs, locks: set<Id>)
    requires CascadeLoop.Progress(pre, root, work, v, done, now, recs) && Apart(pre, pre', locks)
    requires HeardLocked(pre, work, v, done, locks) && forall x :: x in work ==> x in locks
    requires recs'.Keys == pre'.Keys
    requires forall x :: x in pre' ==> if x in locks && x in recs then recs'[x] == recs[x] else recs'[x] == pre'[x]
    ensures CascadeLoop.Progress(pre', root, work, v, done, now, recs') && HeardLocked(pre', work, v, done, locks)
  {
    hide CascadeLoop.ToldAt, CascadeLoop.HeardSoFar, CascadeLoop.Supported, Parents;
    assert root in work && root in locks;
    forall x | x in pre'
      ensures CascadeLoop.ToldAt(pre', root, work, v, done, now, recs', x)
      ensures x !in locks ==> CascadeLoop.HeardSoFar(pre', work, v, done, x) == {}
    {
      assert x in pre ==> CascadeLoop.ToldAt(pre, root, work, v, done, now, recs, x);
      ToldAtStable(pre, pre', root, work, v, done, now, recs, recs', locks, x);
    }
    SupportedStable(pre, pre', work, locks);
  }

  lemma ToldAtStable(pre: Recs, pre': Recs, root: Id, work: seq<Id>, v: nat, done: set<Id>, now: int, recs: Recs,
                     recs': Recs, locks: set<Id>, x: Id)
    requires Apart(pre, pre', locks) && v <= |work| && HeardLocked(pre, work, v, done, locks) && x in pre' && x in recs'
    requires (forall y :: y in work ==> y in locks) && root in work && root in pre
    requires x in pre ==> x in recs && CascadeLoop.ToldAt(pre, root, work, v, done, now, recs, x)
    requires if x in locks && x in recs then recs'[x] == recs[x] else recs'[x] == pre'[x]
    requires x in recs <==> x in pre
    ensures CascadeLoop.ToldAt(pre', root, work, v, done, now, recs', x)
    ensures x !in locks ==> CascadeLoop.HeardSoFar(pre', work, v, done, x) == {}
  {
    hide Told, CascadeLoop.HeardSoFar;
    HeardStable(pre, pre', work, v, done, locks, x);
    if x in locks && x in pre {
      ToldFrame(pre, pre', {root}, DeadRoots(pre, {root}), x in work && x != root,
                CascadeLoop.HeardSoFar(pre, work, v, done, x), now, pre[x], recs[x]);
    } else {
      ToldUnheard(pre', {root}, DeadRoots(pre', {root}), now, pre'[x]);
    }
  }

  lemma HeardStable(pre: Recs, pre': Recs, work: seq<Id>, v: nat, done: set<Id>, locks: set<Id>, x: Id)
    requires Apart(pre, pre', locks) && v <= |work| && HeardLocked(pre, work, v, done, locks) && x in pre'
    requires forall y :: y in work ==> y in locks
    ensures x in pre ==> CascadeLoop.HeardSoFar(pre', work, v, done, x) == CascadeLoop.HeardSoFar(pre, work, v, done, x)
    ensures x !in pre || x !in locks ==> CascadeLoop.HeardSoFar(pre', work, v, done, x) == {}
  {}

  lemma SupportedStable(pre: Recs, pre': Recs, work: seq<Id>, locks: set<Id>)
    requires Apart(pre, pre', locks) && CascadeLoop.Supported(pre, work)
             && forall x :: x in work ==> x in locks && x in pre
    ensures CascadeLoop.Supported(pre', work)
  {
    forall i | 1 <= i < |work| && work[i] in pre' ensures exists p :: p in Parents(pre'[work[i]]) && p in work[..i] {
      assert work[i] in work;
      var p :| p in Parents(pre[work[i]]) && p in work[..i];
      assert p in Parents(pre'[work[i]]);
    }
  }

  /** Two overlays of own writes, before and after a cascade. */
  lemma CascadedStable(rows: Recs, rows': Recs, base: Recs, own: Recs, root: Id, r: Rec, work: seq<Id>, v: nat,
                       done: set<Id>, now: int, locks: set<Id>)
    requires Cascaded(rows + base, root, r, work, v, done, now, rows + own, locks) && Apart(rows, rows', locks)
    requires base.Keys <= rows.Keys * locks && own.Keys <= rows.Keys * locks
    requires (forall x :: x in base ==> Parents(base[x]) == Parents(rows[x]))
             && Parents(r) == Parents((rows + base)[root])
    ensures Cascaded(rows' + base, root, r, work, v, done, now, rows' + own, locks)
  {
    hide CascadeLoop.Progress, HeardLocked, Parents;
    var V, V' := rows + base, rows' + base;
    CascadeLoop.ProgressBounds(V[root := r], root, work, v, done, now, rows + own);
    ApartView(rows, rows', base, locks);
    ApartPut(V, V', root, r, locks);
    OverlayOwn(rows, rows', base, own, root, r, locks);
    ProgressStable(V[root := r], V'[root := r], root, work, v, done, now, rows + own, rows' + own, locks);
  }

  lemma OverlayOwn(rows: Recs, rows': Recs, base: Recs, own: Recs, root: Id, r: Rec, locks: set<Id>)
    requires Apart(rows, rows', locks) && base.Keys <= rows.Keys * locks && own.Keys <= rows.Keys * locks
             && root in rows && root in locks
    ensures var pre', recs, recs' := (rows' + base)[root := r], rows + own, rows' + own;
            recs'.Keys == pre'.Keys
            && forall x :: x in pre' ==> if x in locks && x in recs then recs'[x] == recs[x] else recs'[x] == pre'[x]
  {}
}
