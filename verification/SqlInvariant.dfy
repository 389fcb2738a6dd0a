/** What holds at every moment of every interleaving of SQL transactions, and why each statement keeps it. */
module SqlInvariant {
  import opened Model
  import opened Deps
  import opened Cascade
  import CascadeLoop
  import opened Spec
  import opened Wiring
  import opened Graph
  import opened Invariants
  import opened SqlProtocol

  // ---------------------------------------------------------------------------------------------
  // The invariant
  // ---------------------------------------------------------------------------------------------

  ghost predicate EdgesExact(rows: Recs, edges: set<Edge>) {
    forall c, p :: (c, p) in edges <==> ChildOf(rows, p, c)
  }

  /** The columns no statement ever changes, as far as other transactions rely on them. */
  predicate SameIds(a: Rec, b: Rec) {
    b.task.id == a.task.id && b.task.dependsOn == a.task.dependsOn && b.task.businessKey == a.task.businessKey
    && b.task.replayOf == a.task.replayOf
  }

  /** Rows are stored under their own ids. */
  ghost predicate RowsNamed(rows: Recs) {
    forall x :: x in rows ==> rows[x].task.id == x && x != ""
  }

  ghost predicate AllSameIds(rows: Recs, view: Recs) {
    rows.Keys == view.Keys && forall x :: x in rows ==> SameIds(rows[x], view[x])
  }

  ghost function Done(prog: Prog): set<Id>
    requires prog.Cascading? && (prog.kids.Some? ==> prog.k <= |prog.kids.value|)
  {
    if prog.kids.Some? then Elems(prog.kids.value[..prog.k]) else {}
  }

  ghost predicate KidsKnown(rows: Recs, prog: Prog)
    requires prog.Cascading?
  {
    prog.kids.Some? ==>
      prog.v < |prog.work| && prog.k <= |prog.kids.value| && NoDup(prog.kids.value)
      && forall x :: x in prog.kids.value <==> ChildOf(rows, prog.work[prog.v], x)
  }

  /** Whoever has heard of an ended parent is locked. */
  ghost predicate HeardLocked(pre: Recs, work: seq<Id>, v: nat, done: set<Id>, locks: set<Id>)
    requires v <= |work|
  {
    forall x :: x in pre && x !in locks ==> CascadeLoop.HeardSoFar(pre, work, v, done, x) == {}
  }

  /** A cascade from root over the rows V, its writes leading to view. */
  ghost predicate Cascaded(V: Recs, root: Id, r: Rec, work: seq<Id>, v: nat, done: set<Id>, now: int, view: Recs,
                           locks: set<Id>) {
    root in V && IsFinal(r.task.status) && v <= |work| && (forall x :: x in work ==> x in locks)
    && CascadeLoop.Progress(V[root := r], root, work, v, done, now, view)
    && HeardLocked(V[root := r], work, v, done, locks)
  }

  /** What starts a cascade: a call of its own on a committed row, or one lease the reaper ends. */
  predicate EndsRow(c: Config, prog: Prog, r: Rec)
    requires prog.Cascading?
  {
    match prog.rest
    case None => Acts(c, prog.op, prog.root, r, prog.r)
    case Some(sweep) => prog.op == OpReap(sweep.now, {}, {}) && ReapsRow(c, sweep.pass, r, prog.r, sweep.now)
  }

  ghost predicate CascadeOk(c: Config, rows: Recs, tx: Tx)
    requires tx.prog.Cascading?
  {
    var g, V := tx.prog, rows + Base(tx);
    tx.edges == {} && tx.rows.Keys <= rows.Keys && g.root in V && EndsRow(c, g, V[g.root]) && KidsKnown(rows, g)
    && g.v <= |g.work|
    && (g.rest.None? ==> tx.stages == [])
    && (g.rest.Some? ==> TodoOk(V, g.rest.value, tx.locks) && NotInTodo(g.rest.value, g.root))
    && Cascaded(V, g.root, g.r, g.work, g.v, Done(g), NowOf(g.op), View(rows, tx), tx.locks)
  }

  predicate NotInTodo(sweep: Sweep, id: Id) {
    sweep.todo.Some? ==> id !in sweep.todo.value
  }

  /** The rows still on the reaper's list are locked and as they were selected. */
  ghost predicate TodoOk(V: Recs, sweep: Sweep, locks: set<Id>) {
    sweep.pass <= 2
    && (sweep.pass <= 1 && sweep.todo.Some? ==>
          NoDup(sweep.todo.value)
          && forall x :: x in sweep.todo.value ==> x in locks && x in V && Selected(V[x], sweep.pass, sweep.now))
  }

  /** One finished row of the reaper, over the committed rows of this moment. */
  ghost predicate StageOk(c: Config, rows: Recs, st: Stage, locks: set<Id>) {
    var V, V' := rows + st.before, rows + st.after;
    st.id in rows && st.before.Keys <= rows.Keys * locks && st.after.Keys <= rows.Keys * locks && AllSameIds(rows, V')
    && if st.pass == 2 then st.r == V[st.id] && st.after == st.before[st.id := st.r]
       else ReapsRow(c, st.pass, V[st.id], st.r, st.now)
            && if IsFinal(st.r.task.status) then Cascaded(V, st.id, st.r, st.work, |st.work|, {}, st.now, V', locks)
               else st.after == st.before[st.id := st.r]
  }

  /** A row is taken up with the writes the one before it left. */
  ghost predicate Chained(stages: seq<Stage>, k: nat)
    requires k < |stages|
  {
    stages[k].before == if k == 0 then map[] else stages[k - 1].after
  }

  ghost predicate StagesOk(c: Config, rows: Recs, stages: seq<Stage>, locks: set<Id>) {
    (forall k :: 0 <= k < |stages| ==> StageOk(c, rows, stages[k], locks))
    && (forall k :: 0 <= k < |stages| ==> Chained(stages, k))
  }

  ghost predicate ReadOk(rows: Recs, tx: Tx, j: nat)
    requires tx.prog.Reading? && j < |tx.prog.read| <= |tx.prog.uniq|
  {
    var p := tx.prog.uniq[j];
    p in tx.locks && p in rows && tx.prog.read[j] == ParentState(p, StatusOf(rows, p))
  }

  /** Ended alike: both unfinished, or the same final status. */
  predicate SameEnd(a: Status, b: Status) {
    if IsFinal(a) || IsFinal(b) then a == b else true
  }

  /** A parent status read without a lock: still right about whether and how the parent has ended. */
  ghost predicate SeenOk(V: Recs, deps: seq<Id>, seen: seq<ParentState>, j: nat)
    requires j < |seen| <= |deps|
  {
    deps[j] in V && seen[j].id == deps[j] && SameEnd(StatusOf(V, deps[j]), seen[j].status)
  }

  ghost predicate MendOk(rows: Recs, tx: Tx)
    requires tx.prog.Mending?
  {
    var V, id, seen := rows + Base(tx), tx.prog.id, tx.prog.seen;
    id in rows && id in tx.locks && StatusOf(V, id).Blocked? && |seen| <= |V[id].task.dependsOn|
    && forall j :: 0 <= j < |seen| ==> SeenOk(V, V[id].task.dependsOn, seen, j)
  }

  ghost predicate CopyOk(rows: Recs, locks: set<Id>, req: ReplayRequest, gen: Id, target: Id) {
    gen != "" && (req.executionId == "") != (req.businessKey == "") && target != "" && target in rows && target in locks
    && (if req.executionId != "" then target == req.executionId else rows[target].task.businessKey == req.businessKey)
  }

  /** What a transaction relies on; it speaks only of rows it holds. */
  ghost predicate TxOk(c: Config, rows: Recs, tx: Tx) {
    tx.rows.Keys <= tx.locks && StagesOk(c, rows, tx.stages, tx.locks)
    && match tx.prog
       case Reading(t, id, now, uniq, read) =>
         NamedRight(t, id) && tx.rows == map[] && tx.edges == {} && tx.stages == [] && uniq == Distinct(t.dependsOn)
         && |read| <= |uniq|
         && forall j :: 0 <= j < |read| ==> ReadOk(rows, tx, j)
       case Linking(t, id, now, uniq, n) =>
         NamedRight(t, id) && tx.stages == [] && uniq == Distinct(t.dependsOn) && n <= |uniq| && id !in rows
         && id in tx.locks
         && ParentSet(uniq) <= tx.locks * rows.Keys && tx.rows.Keys == {id} && Submitted(rows, t, id, now, tx.rows[id])
         && (t.businessKey != "" ==> NoHead(rows, t.businessKey))
         && forall x, p :: (x, p) in tx.edges <==> x == id && p in uniq[..n]
       case Seeking(req, gen, now) =>
         tx.rows == map[] && tx.edges == {} && tx.stages == [] && gen != ""
         && (req.executionId == "") != (req.businessKey == "")
       case Targeted(req, gen, now, target, unreplayed) =>
         tx.rows == map[] && tx.edges == {} && tx.stages == [] && CopyOk(rows, tx.locks, req, gen, target)
         && (unreplayed ==> Unreplayed(rows, target))
       case Copied(req, gen, now, target) =>
         tx.edges == {} && tx.stages == [] && CopyOk(rows, tx.locks, req, gen, target) && Unreplayed(rows, target)
         && gen !in rows && gen in tx.locks && IsFinal(StatusOf(rows, target))
         && (StatusOf(rows, target).Completed? ==> req.allowCompleted)
         && tx.rows == map[gen := ReplayRec(rows[target].task, gen, req.payload, now)]
       case Starting(op, id) =>
         tx.rows == map[] && tx.edges == {} && tx.stages == [] && RowOp(op) && (id in tx.locks ==> id in rows)
       case Written(op, id, r) =>
         tx.edges == {} && tx.stages == [] && tx.rows == map[id := r] && id in rows && Acts(c, op, id, rows[id], r)
         && !IsFinal(r.task.status)
       case Cascading(_, _, _, _, _, _, _, _) => StageClock(tx.prog, tx.stages) && CascadeOk(c, rows, tx)
       case Sweeping(sweep) =>
         tx.edges == {} && tx.rows == Base(tx) && StageClock(tx.prog, tx.stages)
         && TodoOk(rows + Base(tx), sweep, tx.locks)
       case Mending(sweep, id, seen) =>
         tx.edges == {} && tx.rows == Base(tx) && sweep.pass == 2 && StageClock(tx.prog, tx.stages) && MendOk(rows, tx)
  }

  /** One reading of the clock for the whole of ReapExpired. */
  ghost predicate StageClock(prog: Prog, stages: seq<Stage>) {
    forall k :: 0 <= k < |stages| ==> ClockIs(prog, stages[k].now)
  }

  predicate ClockIs(prog: Prog, now: int) {
    match prog
    case Cascading(_, _, _, _, _, _, _, rest) => rest.Some? && now == rest.value.now
    case Sweeping(sweep) => now == sweep.now
    case Mending(sweep, _, _) => now == sweep.now
    case _ => false
  }

  ghost predicate Inv(c: Config, db: Db) {
    GraphInv(db.rows) && EdgesExact(db.rows, db.edges) && RowsNamed(db.rows)
    && (forall i :: i in db.txs ==> TxOk(c, db.rows, db.txs[i]))
    && (forall i, j :: i in db.txs && j in db.txs && i != j ==> db.txs[i].locks !! db.txs[j].locks)
    && (forall i, j :: i in db.txs && j in db.txs && i != j && KeyHeld(db.txs[i].prog) != "" ==>
          KeyHeld(db.txs[j].prog) != KeyHeld(db.txs[i].prog))
  }

  // ---------------------------------------------------------------------------------------------
  // Rows and views
  // ---------------------------------------------------------------------------------------------

  lemma ViewOne(rows: Recs, id: Id, r: Rec)
    requires id in rows
    ensures rows + map[id := r] == rows[id := r]
  {}

  lemma ViewPut(rows: Recs, own: Recs, id: Id, r: Rec)
    requires id in rows && own.Keys <= rows.Keys
    ensures (rows + own)[id := r] == rows + own[id := r]
  {}

  lemma SamePut(m: Recs, id: Id)
    requires id in m
    ensures m[id := m[id]] == m
  {}

  lemma ActsShape(c: Config, op: Op, id: Id, r: Rec, r': Rec)
    requires Acts(c, op, id, r, r')
    ensures SameShape(r, r') && SameIds(r, r')
    ensures IsFinal(r'.task.status) ==> LegalEnd(r, r')
    ensures !IsFinal(r'.task.status) ==> SameStage(r, r')
  {}

  lemma ReapsShape(c: Config, pass: nat, r: Rec, r': Rec, now: int)
    requires ReapsRow(c, pass, r, r', now)
    ensures SameShape(r, r') && SameIds(r, r')
    ensures IsFinal(r'.task.status) ==> LegalEnd(r, r')
    ensures !IsFinal(r'.task.status) ==> SameStage(r, r')
  {}

  lemma EndsShape(c: Config, prog: Prog, r: Rec)
    requires prog.Cascading? && EndsRow(c, prog, r) && IsFinal(prog.r.task.status)
    ensures LegalEnd(r, prog.r) && SameIds(r, prog.r)
  {
    hide Acts, ReapsRow;
    match prog.rest {
      case None => ActsShape(c, prog.op, prog.root, r, prog.r);
      case Some(sweep) => ReapsShape(c, sweep.pass, r, prog.r, sweep.now);
    }
  }

  /** The reaper's writes keep every row's links. */
  lemma BaseIds(c: Config, rows: Recs, tx: Tx)
    requires StagesOk(c, rows, tx.stages, tx.locks)
    ensures AllSameIds(rows, rows + Base(tx)) && Base(tx).Keys <= rows.Keys * tx.locks
  {
    hide ReapsRow, Cascaded;
    if tx.stages != [] {
      assert StageOk(c, rows, tx.stages[|tx.stages| - 1], tx.locks);
    } else {
      assert rows + map[] == rows;
    }
  }

  lemma IdsLinks(rows: Recs, V: Recs)
    requires AllSameIds(rows, V)
    ensures forall x :: x in rows ==> Parents(V[x]) == Parents(rows[x])
    ensures forall p, x :: ChildOf(V, p, x) <==> ChildOf(rows, p, x)
  {}

  lemma IdsPut(rows: Recs, V: Recs, id: Id, r: Rec)
    requires AllSameIds(rows, V) && id in V && SameIds(V[id], r)
    ensures AllSameIds(rows, V[id := r])
  {}

  lemma CascadedIds(V: Recs, root: Id, r: Rec, work: seq<Id>, now: int, view: Recs, locks: set<Id>)
    requires Cascaded(V, root, r, work, |work|, {}, now, view, locks) && SameIds(V[root], r)
    ensures AllSameIds(V, view)
  {
    hide CascadeLoop.Progress, HeardLocked, Outcome;
    CascadeLoop.ProgressFinish(V[root := r], root, work, now, view);
    forall x | x in V ensures x in view && SameIds(V[x], view[x]) {
      OutcomeIds(V[root := r], root, now, view, x);
    }
    OutcomeSameDeps(V[root := r], {root}, now, view);
  }

  lemma OutcomeIds(pre: Recs, root: Id, now: int, post: Recs, x: Id)
    requires Outcome(pre, {root}, now, post) && x in pre
    ensures x in post && SameIds(pre[x], post[x])
  {
    hide Doomed, NamesOne;
    SettledOne(pre, {root}, Doomed(pre, {root}), now, post, x);
  }

  lemma AllIdsTrans(a: Recs, b: Recs, c: Recs)
    requires AllSameIds(a, b) && AllSameIds(b, c)
    ensures AllSameIds(a, c)
  {}

  // ---------------------------------------------------------------------------------------------
  // Enqueue, replay and single rows
  // ---------------------------------------------------------------------------------------------

  lemma ReadingKept(c: Config, db: Db, act: Action, tx: Tx, tx': Tx)
    requires TxOk(c, db.rows, tx) && act.LockParent? && CallStep(c, db, act, tx, tx')
    ensures TxOk(c, db.rows, tx')
  {
    hide StageOk;
    forall j | 0 <= j < |tx'.prog.read| ensures ReadOk(db.rows, tx', j) {
      if j < |tx.prog.read| { assert ReadOk(db.rows, tx, j); }
    }
  }

  lemma InsertKept(c: Config, db: Db, act: Action, tx: Tx, tx': Tx)
    requires TxOk(c, db.rows, tx) && act.Insert? && CallStep(c, db, act, tx, tx')
    ensures TxOk(c, db.rows, tx')
  {
    hide Submitted, InitialStatus, NamesDead, Waiting, Distinct, SubmitRec, SqlSubmitRow, NoneDead, Unfinished,
         NamesFirstDead, NoHead, StageOk;
    var t, uniq, read, d := tx.prog.t, tx.prog.uniq, tx.prog.read, act.d;
    forall j | 0 <= j < |uniq|
      ensures uniq[j] in tx.locks * db.rows.Keys && read[j] == ParentState(uniq[j], StatusOf(db.rows, uniq[j]))
    {
      assert ReadOk(db.rows, tx, j);
    }
    assert ParentSet(uniq) <= tx.locks * db.rows.Keys;
    assert FromTable(db.rows, uniq, read);
    DistinctElems(t.dependsOn);
    DecisionFromTable(db.rows, uniq, read, Policied(t), d);
    NamesDistinct(db.rows, t.dependsOn, d.lastError);
    DecidedSubmitted(db.rows, t, tx.prog.id, Policied(t), d, tx.prog.now);
    InsertColumns(t, tx.prog.id, d, tx.prog.now);
  }

  lemma LinkingKept(c: Config, db: Db, act: Action, tx: Tx, tx': Tx)
    requires TxOk(c, db.rows, tx) && act.InsertEdge? && CallStep(c, db, act, tx, tx')
    ensures TxOk(c, db.rows, tx')
  {
    hide Submitted, StageOk, NoHead;
    var uniq, n := tx.prog.uniq, tx.prog.n;
    assert uniq[..n + 1] == uniq[..n] + [uniq[n]];
  }

  lemma ReplayKept(c: Config, db: Db, act: Action, tx: Tx, tx': Tx)
    requires RowsNamed(db.rows) && TxOk(c, db.rows, tx) && CallStep(c, db, act, tx, tx')
    requires act.LockTarget? || act.CheckReplayed? || act.InsertCopy?
    ensures TxOk(c, db.rows, tx')
  {
    hide StageOk, Unreplayed, SqlReplayRow, ReplayRec;
    if act.InsertCopy? {
      ReplayColumns(db.rows[tx.prog.target].task, tx.prog.gen, tx.prog.req.payload, tx.prog.now);
    }
  }

  lemma NobodyHeard(pre: Recs, work: seq<Id>, locks: set<Id>)
    ensures HeardLocked(pre, work, 0, {}, locks)
  {}

  lemma CascadeStart(V: Recs, root: Id, r: Rec, now: int, locks: set<Id>)
    requires root in V && root in locks && IsFinal(r.task.status)
    ensures Cascaded(V, root, r, [root], 0, {}, now, V[root := r], locks)
  {
    hide CascadeLoop.Progress, HeardLocked;
    CascadeLoop.ProgressStart(V[root := r], root, now);
    NobodyHeard(V[root := r], [root], locks);
  }

  lemma RowKept(c: Config, db: Db, act: Action, tx: Tx, tx': Tx)
    requires TxOk(c, db.rows, tx) && (act.LockRow? || act.WriteRow?) && CallStep(c, db, act, tx, tx')
    ensures TxOk(c, db.rows, tx')
  {
    hide Acts, StageOk, Cascaded;
    if act.WriteRow? {
      var id, r := tx.prog.id, act.r;
      ViewOne(db.rows, id, r);
      assert db.rows + map[] == db.rows;
      if IsFinal(r.task.status) {
        CascadeStart(db.rows, id, r, NowOf(tx.prog.op), tx.locks);
      }
    }
  }

  // ---------------------------------------------------------------------------------------------
  // Cascades
  // ---------------------------------------------------------------------------------------------

  lemma ReadKidsKept(c: Config, db: Db, act: Action, tx: Tx, tx': Tx)
    requires EdgesExact(db.rows, db.edges) && tx.prog.Cascading? && CascadeOk(c, db.rows, tx)
    requires act.ReadKids? && CascadeStep(db, act, tx, tx')
    ensures CascadeOk(c, db.rows, tx')
  {
    hide EndsRow, Cascaded, TodoOk;
    assert Done(tx'.prog) == {};
    forall x ensures x in act.ids <==> ChildOf(db.rows, tx.prog.work[tx.prog.v], x) {
      assert (x, tx.prog.work[tx.prog.v]) in db.edges <==> ChildOf(db.rows, tx.prog.work[tx.prog.v], x);
    }
    assert View(db.rows, tx') == View(db.rows, tx);
    assert forall r: Rec :: EndsRow(c, tx'.prog, r) == EndsRow(c, tx.prog, r) by { EndsSame(c, tx.prog, tx'.prog); }
  }

  lemma EndsSame(c: Config, a: Prog, b: Prog)
    requires a.Cascading? && b.Cascading? && a.op == b.op && a.root == b.root && a.r == b.r && a.rest == b.rest
    ensures forall r: Rec :: EndsRow(c, a, r) == EndsRow(c, b, r)
  {}

  lemma MoreLocks(V: Recs, root: Id, r: Rec, work: seq<Id>, v: nat, done: set<Id>, now: int, view: Recs, locks: set<Id>,
                  more: set<Id>)
    requires Cascaded(V, root, r, work, v, done, now, view, locks) && locks <= more
    ensures Cascaded(V, root, r, work, v, done, now, view, more)
  {
    hide CascadeLoop.Progress;
  }

  lemma StagesMore(c: Config, rows: Recs, stages: seq<Stage>, locks: set<Id>, more: set<Id>)
    requires StagesOk(c, rows, stages, locks) && locks <= more
    ensures StagesOk(c, rows, stages, more)
  {
    hide ReapsRow, Cascaded;
    forall k | 0 <= k < |stages| ensures StageOk(c, rows, stages[k], more) {
      var st := stages[k];
      assert StageOk(c, rows, st, locks);
      if st.pass != 2 && IsFinal(st.r.task.status) {
        MoreLocks(rows + st.before, st.id, st.r, st.work, |st.work|, {}, st.now, rows + st.after, locks, more);
      }
    }
  }

  lemma LockKidKept(c: Config, db: Db, act: Action, tx: Tx, tx': Tx)
    requires tx.prog.Cascading? && CascadeOk(c, db.rows, tx) && act.LockKid? && CascadeStep(db, act, tx, tx')
    ensures CascadeOk(c, db.rows, tx')
  {
    hide EndsRow, Cascaded;
    var g := tx.prog;
    MoreLocks(db.rows + Base(tx), g.root, g.r, g.work, g.v, Done(g), NowOf(g.op), View(db.rows, tx), tx.locks,
              tx'.locks);
  }

  lemma HeardByKid(pre: Recs, work: seq<Id>, v: nat, done: set<Id>, kid: Id, work': seq<Id>, locks: set<Id>)
    requires v < |work| && work <= work' && kid in pre && kid in locks && HeardLocked(pre, work, v, done, locks)
    ensures HeardLocked(pre, work', v, done + {kid}, locks)
  {
    hide CascadeLoop.HeardSoFar;
    forall x | x in pre && x !in locks ensures CascadeLoop.HeardSoFar(pre, work', v, done + {kid}, x) == {} {
      CascadeLoop.HeardGrows(pre, work, v, done, kid, x, work');
    }
  }

  /** A locked child visited inside the transaction moves the cascade forward. */
  lemma CascadeVisit(V: Recs, root: Id, r: Rec, work: seq<Id>, v: nat, done: set<Id>, now: int, view: Recs,
                     locks: set<Id>, kid: Id)
    requires Cascaded(V, root, r, work, v, done, now, view, locks) && v < |work| && kid in V && kid in locks
             && kid !in done
    requires ChildOf(V[root := r], work[v], kid)
    ensures work[v] in view && kid in view
    ensures var r' := VisitChild(work[v], StatusOf(view, work[v]), view[kid], now);
            Cascaded(V, root, r, CascadeLoop.Extend(work, kid, view[kid], r'), v, done + {kid}, now, view[kid := r'],
                     locks)
  {
    hide VisitChild, CascadeLoop.Progress, HeardLocked;
    var pre := V[root := r];
    CascadeLoop.ProgressBounds(pre, root, work, v, done, now, view);
    var r' := VisitChild(work[v], StatusOf(view, work[v]), view[kid], now);
    CascadeLoop.ProgressVisit(pre, root, work, v, done, now, view, kid);
    HeardByKid(pre, work, v, done, kid, CascadeLoop.Extend(work, kid, view[kid], r'), locks);
  }

  lemma KidIsChild(c: Config, rows: Recs, tx: Tx)
    requires StagesOk(c, rows, tx.stages, tx.locks) && AtKid(tx) && CascadeOk(c, rows, tx)
    ensures var g, V := tx.prog, rows + Base(tx);
            Kid(tx) in V && Kid(tx) !in Done(g) && ChildOf(V[g.root := g.r], Parent(tx), Kid(tx))
            && Elems(g.kids.value[..g.k + 1]) == Done(g) + {Kid(tx)}
  {
    hide EndsRow, Cascaded, TodoOk, StagesOk;
    var g, V, kid := tx.prog, rows + Base(tx), Kid(tx);
    BaseIds(c, rows, tx);
    RootIds(c, g, V, Done(g), NowOf(g.op), View(rows, tx), tx.locks);
    IdsLinks(rows, V);
    ElemsStep(g.kids.value, g.k);
    assert kid in g.kids.value && ChildOf(rows, Parent(tx), kid);
    SameLinks(V, g.root, g.r);
  }

  lemma VisitKept(c: Config, db: Db, act: Action, tx: Tx, tx': Tx)
    requires StagesOk(c, db.rows, tx.stages, tx.locks) && tx.prog.Cascading? && CascadeOk(c, db.rows, tx)
    requires act.VisitKid? && CascadeStep(db, act, tx, tx')
    ensures CascadeOk(c, db.rows, tx')
  {
    hide EndsRow, Cascaded, VisitChild, CascadeLoop.Extend, TodoOk, StagesOk, ChildOf;
    var g, V, view, kid := tx.prog, db.rows + Base(tx), View(db.rows, tx), Kid(tx);
    KidIsChild(c, db.rows, tx);
    CascadeVisit(V, g.root, g.r, g.work, g.v, Done(g), NowOf(g.op), view, tx.locks, kid);
    ViewPut(db.rows, tx.rows, kid, tx'.rows[kid]);
    ExtendPrefix(g.work, kid, view[kid], tx'.rows[kid]);
    EndsSame(c, g, tx'.prog);
  }

  lemma RootIds(c: Config, prog: Prog, V: Recs, done: set<Id>, now: int, view: Recs, locks: set<Id>)
    requires prog.Cascading? && prog.root in V && EndsRow(c, prog, V[prog.root])
    requires Cascaded(V, prog.root, prog.r, prog.work, prog.v, done, now, view, locks)
    ensures SameIds(V[prog.root], prog.r)
  {
    hide CascadeLoop.Progress, HeardLocked, EndsRow;
    EndsShape(c, prog, V[prog.root]);
  }

  lemma ExtendPrefix(work: seq<Id>, kid: Id, a: Rec, b: Rec)
    ensures work <= CascadeLoop.Extend(work, kid, a, b)
  {}

  lemma SameLinks(V: Recs, root: Id, r: Rec)
    requires root in V && SameIds(V[root], r)
    ensures forall p, x :: ChildOf(V[root := r], p, x) <==> ChildOf(V, p, x)
    ensures forall x :: x in V ==> Parents(V[root := r][x]) == Parents(V[x])
  {}

  lemma CascadeNext(V: Recs, root: Id, r: Rec, work: seq<Id>, v: nat, done: set<Id>, now: int, view: Recs,
                    locks: set<Id>)
    requires Cascaded(V, root, r, work, v, done, now, view, locks) && v < |work|
    requires forall x :: ChildOf(V[root := r], work[v], x) ==> x in done
    ensures Cascaded(V, root, r, work, v + 1, {}, now, view, locks)
  {
    hide CascadeLoop.Progress;
    var pre := V[root := r];
    forall x | x in pre && work[v] in Parents(pre[x]) ensures x in done {
      assert ChildOf(pre, work[v], x);
    }
    CascadeLoop.ProgressNext(pre, root, work, v, done, now, view);
    forall x | x in pre && x !in locks ensures CascadeLoop.HeardSoFar(pre, work, v + 1, {}, x) == {} {
      CascadeLoop.HeardNext(pre, work, v, done, x);
    }
  }

  /** With the list read and worked off, every child of the current parent has been visited. */
  lemma KidsDone(c: Config, rows: Recs, tx: Tx)
    requires StagesOk(c, rows, tx.stages, tx.locks) && tx.prog.Cascading? && CascadeOk(c, rows, tx)
    requires tx.prog.kids.Some? && tx.prog.k == |tx.prog.kids.value|
    ensures var g := tx.prog;
            forall x :: ChildOf((rows + Base(tx))[g.root := g.r], g.work[g.v], x) ==> x in Done(g)
  {
    hide EndsRow, Cascaded, TodoOk, StagesOk, NoDup, ChildOf, AllSameIds;
    var g, V := tx.prog, rows + Base(tx);
    assert g.kids.value[..g.k] == g.kids.value;
    BaseIds(c, rows, tx);
    RootIds(c, g, V, Done(g), NowOf(g.op), View(rows, tx), tx.locks);
    IdsLinks(rows, V);
    SameLinks(V, g.root, g.r);
  }

  lemma NextKept(c: Config, db: Db, act: Action, tx: Tx, tx': Tx)
    requires StagesOk(c, db.rows, tx.stages, tx.locks) && tx.prog.Cascading? && CascadeOk(c, db.rows, tx)
    requires act.NextParent? && CascadeStep(db, act, tx, tx')
    ensures CascadeOk(c, db.rows, tx')
  {
    hide EndsRow, Cascaded, TodoOk, StagesOk, NoDup, ChildOf;
    var g, V := tx.prog, db.rows + Base(tx);
    KidsDone(c, db.rows, tx);
    CascadeNext(V, g.root, g.r, g.work, g.v, Done(g), NowOf(g.op), View(db.rows, tx), tx.locks);
    EndsSame(c, g, tx'.prog);
  }
}
