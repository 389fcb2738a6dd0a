/** Every interleaving: the invariant holds at every moment, so no wake-up is lost, and committed rows move only by
    reference steps. */
module SqlHistory {
  import opened Model
  import opened Deps
  import opened Cascade
  import CascadeLoop
  import opened Spec
  import opened Wiring
  import opened Graph
  import opened Invariants
  import opened SqlProtocol
  import opened SqlInvariant
  import opened SqlReaper
  import opened SqlCommits

  // ---------------------------------------------------------------------------------------------
  // Open transactions do not notice a foreign commit
  // ---------------------------------------------------------------------------------------------

  lemma IdsStable(rows: Recs, rows': Recs, own: Recs, locks: set<Id>)
    requires Apart(rows, rows', locks) && own.Keys <= rows.Keys * locks && AllSameIds(rows, rows + own)
    ensures AllSameIds(rows', rows' + own)
  {
    forall x | x in rows' ensures SameIds(rows'[x], (rows' + own)[x]) {
      if x in own {
        assert SameIds(rows[x], (rows + own)[x]);
      }
    }
  }

  lemma OwnParents(rows: Recs, own: Recs)
    requires AllSameIds(rows, rows + own) && own.Keys <= rows.Keys
    ensures forall x :: x in own ==> Parents(own[x]) == Parents(rows[x])
  {
    forall x | x in own ensures Parents(own[x]) == Parents(rows[x]) {
      assert SameIds(rows[x], (rows + own)[x]);
    }
  }

  lemma StageStable(c: Config, rows: Recs, rows': Recs, st: Stage, locks: set<Id>)
    requires StageOk(c, rows, st, locks) && Apart(rows, rows', locks) && AllSameIds(rows, rows + st.before)
    ensures StageOk(c, rows', st, locks)
  {
    hide ReapsRow, Cascaded, AllSameIds, Parents;
    var V, W := rows + st.before, rows' + st.before;
    IdsStable(rows, rows', st.after, locks);
    if st.pass == 2 || !IsFinal(st.r.task.status) {
      assert st.id in st.after;
      HeldRow(rows, rows', st.before, locks, st.id);
    } else {
      OwnParents(rows, st.before);
      RootHeld(V, st.id, st.r, st.work, |st.work|, {}, st.now, rows + st.after, locks);
      HeldRow(rows, rows', st.before, locks, st.id);
      ReapsParents(c, st.pass, V[st.id], st.r, st.now);
      CascadedStable(rows, rows', st.before, st.after, st.id, st.r, st.work, |st.work|, {}, st.now, locks);
    }
  }

  lemma RootHeld(V: Recs, root: Id, r: Rec, work: seq<Id>, v: nat, done: set<Id>, now: int, view: Recs, locks: set<Id>)
    requires Cascaded(V, root, r, work, v, done, now, view, locks)
    ensures root in locks && root in V && IsFinal(r.task.status)
  {
    hide HeardLocked;
    CascadeLoop.ProgressBounds(V[root := r], root, work, v, done, now, view);
  }

  lemma ReapsParents(c: Config, pass: nat, r: Rec, r': Rec, now: int)
    requires ReapsRow(c, pass, r, r', now)
    ensures Parents(r') == Parents(r)
  {
    ReapsShape(c, pass, r, r', now);
  }

  lemma HeldRow(rows: Recs, rows': Recs, own: Recs, locks: set<Id>, x: Id)
    requires Apart(rows, rows', locks) && own.Keys <= rows.Keys * locks && x in locks && x in rows
    ensures x in rows' && (rows' + own)[x] == (rows + own)[x]
  {}

  lemma BeforeIds(c: Config, rows: Recs, stages: seq<Stage>, locks: set<Id>, k: nat)
    requires StagesOk(c, rows, stages, locks) && k < |stages|
    ensures AllSameIds(rows, rows + stages[k].before)
  {
    hide ReapsRow, Cascaded;
    assert Chained(stages, k);
    if k == 0 {
      assert rows + map[] == rows;
    } else {
      assert StageOk(c, rows, stages[k - 1], locks);
    }
  }

  lemma StagesStable(c: Config, rows: Recs, rows': Recs, stages: seq<Stage>, locks: set<Id>)
    requires StagesOk(c, rows, stages, locks) && Apart(rows, rows', locks)
    ensures StagesOk(c, rows', stages, locks)
  {
    hide StageOk, Apart, AllSameIds;
    forall k | 0 <= k < |stages| ensures StageOk(c, rows', stages[k], locks) {
      assert StageOk(c, rows, stages[k], locks);
      BeforeIds(c, rows, stages, locks, k);
      StageStable(c, rows, rows', stages[k], locks);
    }
  }

  lemma ReadingStable(c: Config, rows: Recs, tx: Tx, rows': Recs)
    requires TxOk(c, rows, tx) && Elsewhere(rows, rows', tx.locks, KeyHeld(tx.prog)) && tx.prog.Reading?
    ensures TxOk(c, rows', tx)
  {
    hide Distinct, StageOk, ParentsLast;
    forall j | 0 <= j < |tx.prog.read| ensures ReadOk(rows', tx, j) {
      assert ReadOk(rows, tx, j);
    }
  }

  lemma LinkingStable(c: Config, rows: Recs, tx: Tx, rows': Recs)
    requires TxOk(c, rows, tx) && Elsewhere(rows, rows', tx.locks, KeyHeld(tx.prog)) && tx.prog.Linking?
    ensures TxOk(c, rows', tx)
  {
    hide Distinct, StageOk, ParentsLast, Submitted;
    DistinctElems(tx.prog.t.dependsOn);
    SubmittedStable(rows, rows', tx.prog.t, tx.prog.id, tx.prog.now, tx.rows[tx.prog.id], tx.locks);
    if tx.prog.t.businessKey != "" {
      HeadStable(rows, rows', tx.locks, tx.prog.t.businessKey);
    }
  }

  lemma HeadStable(rows: Recs, rows': Recs, locks: set<Id>, key: Key)
    requires key != "" && NoHead(rows, key) && Elsewhere(rows, rows', locks, key)
    ensures NoHead(rows', key)
  {
    hide Apart, ParentsLast;
    forall x | x in rows' && rows'[x].task.replayOf == "" ensures rows'[x].task.businessKey != key {
      if x in rows {
        assert SameIds(rows[x], rows'[x]);
      }
    }
  }

  lemma UnreplayedStable(rows: Recs, rows': Recs, locks: set<Id>, key: Key, target: Id)
    requires target != "" && target in locks && Unreplayed(rows, target) && Elsewhere(rows, rows', locks, key)
    ensures Unreplayed(rows', target)
  {
    hide Apart, ParentsLast;
    forall x | x in rows' ensures rows'[x].task.replayOf != target {
      if x in rows {
        assert SameIds(rows[x], rows'[x]);
      }
    }
  }

  lemma SubmittedStable(rows: Recs, rows': Recs, t: Task, id: Id, now: int, r: Rec, locks: set<Id>)
    requires Submitted(rows, t, id, now, r) && Apart(rows, rows', locks) && ParentSet(t.dependsOn) <= locks * rows.Keys
    ensures Submitted(rows', t, id, now, r)
  {
    var ps := ParentSet(t.dependsOn);
    assert forall p :: p in ps ==> p in rows && p in rows' && rows'[p] == rows[p];
    assert Waiting(rows', ps) == Waiting(rows, ps);
    assert AnyDead(rows', ps) == AnyDead(rows, ps);
    FirstStable(rows, rows', t.dependsOn);
  }

  lemma {:induction false} FirstStable(rows: Recs, rows': Recs, ids: seq<Id>)
    requires forall p :: p in ids ==> p in rows && p in rows' && rows'[p] == rows[p]
    ensures FirstDead(rows', ids) == FirstDead(rows, ids)
    ensures var p := FirstDead(rows, ids); p.Some? ==>
            p.value in rows && p.value in rows' && rows'[p.value] == rows[p.value]
  {
    if ids != [] {
      FirstStable(rows, rows', ids[..|ids| - 1]);
    }
  }

  lemma CopyStable(c: Config, rows: Recs, tx: Tx, rows': Recs)
    requires TxOk(c, rows, tx) && Elsewhere(rows, rows', tx.locks, KeyHeld(tx.prog))
             && (tx.prog.Targeted? || tx.prog.Copied?)
    ensures TxOk(c, rows', tx)
  {
    hide StageOk, ParentsLast, ReplayRec, Unreplayed;
    var target := tx.prog.target;
    if Unreplayed(rows, target) {
      UnreplayedStable(rows, rows', tx.locks, "", target);
    }
  }

  lemma TodoStable(rows: Recs, rows': Recs, base: Recs, sweep: Sweep, locks: set<Id>)
    requires TodoOk(rows + base, sweep, locks) && Apart(rows, rows', locks) && base.Keys <= rows.Keys * locks
    ensures TodoOk(rows' + base, sweep, locks)
  {
    hide Selected, Apart;
    if sweep.pass <= 1 && sweep.todo.Some? {
      forall x | x in sweep.todo.value
        ensures x in rows' + base && Selected((rows' + base)[x], sweep.pass, sweep.now)
      {
        assert x in rows;
        HeldRow(rows, rows', base, locks, x);
      }
    }
  }

  lemma CascadeOkStable(c: Config, rows: Recs, tx: Tx, rows': Recs)
    requires tx.prog.Cascading? && tx.rows.Keys <= tx.locks && StagesOk(c, rows, tx.stages, tx.locks)
             && CascadeOk(c, rows, tx)
    requires Apart(rows, rows', tx.locks)
    ensures CascadeOk(c, rows', tx)
  {
    hide EndsRow, Cascaded, StagesOk, TodoOk, Apart, AllSameIds, Parents;
    var g, V := tx.prog, rows + Base(tx);
    BaseIds(c, rows, tx);
    BaseKeys(rows, tx);
    OwnParents(rows, Base(tx));
    RootHeld(V, g.root, g.r, g.work, g.v, Done(g), NowOf(g.op), View(rows, tx), tx.locks);
    RootIds(c, g, V, Done(g), NowOf(g.op), View(rows, tx), tx.locks);
    HeldRow(rows, rows', Base(tx), tx.locks, g.root);
    IdsParents(V[g.root], g.r);
    CascadedStable(rows, rows', Base(tx), tx.rows, g.root, g.r, g.work, g.v, Done(g), NowOf(g.op), tx.locks);
    ApartKeys(rows, rows', tx.locks);
    if g.rest.Some? {
      TodoStable(rows, rows', Base(tx), g.rest.value, tx.locks);
    }
    if g.kids.Some? {
      WorkHeld(V, g.root, g.r, g.work, g.v, Done(g), NowOf(g.op), View(rows, tx), tx.locks);
      KidsStable(rows, rows', g.work[g.v], tx.locks);
    }
  }

  lemma WorkHeld(V: Recs, root: Id, r: Rec, work: seq<Id>, v: nat, done: set<Id>, now: int, view: Recs, locks: set<Id>)
    requires Cascaded(V, root, r, work, v, done, now, view, locks)
    ensures forall x :: x in work ==> x in locks
  {}

  lemma IdsParents(a: Rec, b: Rec)
    requires SameIds(a, b)
    ensures Parents(b) == Parents(a)
  {}

  lemma ApartKeys(rows: Recs, rows': Recs, locks: set<Id>)
    requires Apart(rows, rows', locks)
    ensures rows.Keys <= rows'.Keys
  {}

  lemma KidsStable(rows: Recs, rows': Recs, p: Id, locks: set<Id>)
    requires Apart(rows, rows', locks) && p in locks
    ensures forall x :: ChildOf(rows', p, x) <==> ChildOf(rows, p, x)
  {}

  /** A parent read without a lock is still right: ending it would have needed the lock on this child. */
  lemma MendStable(c: Config, rows: Recs, tx: Tx, rows': Recs)
    requires tx.prog.Mending? && MendOk(rows, tx) && StagesOk(c, rows, tx.stages, tx.locks)
    requires Elsewhere(rows, rows', tx.locks, KeyHeld(tx.prog))
    ensures MendOk(rows', tx)
  {
    hide StagesOk, AllSameIds;
    var V, V', id, seen := rows + Base(tx), rows' + Base(tx), tx.prog.id, tx.prog.seen;
    BaseIds(c, rows, tx);
    HeldRow(rows, rows', Base(tx), tx.locks, id);
    assert ParentsLast(rows, rows', id);
    var deps := V[id].task.dependsOn;
    forall j | 0 <= j < |seen| ensures SeenOk(V', deps, seen, j) {
      assert SeenOk(V, deps, seen, j);
      var p := deps[j];
      BaseParent(rows, Base(tx), id, p);
      if p in Base(tx) {
        assert V'[p] == V[p];
      } else {
        assert SameEnd(StatusOf(rows, p), StatusOf(rows', p));
      }
    }
  }

  lemma BaseParent(rows: Recs, base: Recs, id: Id, p: Id)
    requires AllSameIds(rows, rows + base) && id in rows && p in (rows + base)[id].task.dependsOn
    ensures p in Parents(rows[id])
  {}

  lemma TxStable(c: Config, rows: Recs, tx: Tx, rows': Recs)
    requires TxOk(c, rows, tx) && Elsewhere(rows, rows', tx.locks, KeyHeld(tx.prog))
    ensures TxOk(c, rows', tx)
  {
    hide StagesOk, ParentsLast, Submitted, NoHead, Unreplayed, ReplayRec;
    StagesStable(c, rows, rows', tx.stages, tx.locks);
    match tx.prog {
      case Reading(_, _, _, _, _) => ReadingStable(c, rows, tx, rows');
      case Linking(_, _, _, _, _) => LinkingStable(c, rows, tx, rows');
      case Targeted(_, _, _, _, _) => CopyStable(c, rows, tx, rows');
      case Copied(_, _, _, _) => CopyStable(c, rows, tx, rows');
      case Cascading(_, _, _, _, _, _, _, _) => CascadingStable(c, rows, tx, rows');
      case Sweeping(sweep) => SweepingStable(c, rows, tx, rows');
      case Mending(_, _, _) => MendingStable(c, rows, tx, rows');
      case _ => RowStable(c, rows, tx, rows');
    }
  }

  lemma RowStable(c: Config, rows: Recs, tx: Tx, rows': Recs)
    requires TxOk(c, rows, tx) && Elsewhere(rows, rows', tx.locks, KeyHeld(tx.prog))
    requires tx.prog.Seeking? || tx.prog.Starting? || tx.prog.Written?
    ensures TxOk(c, rows', tx)
  {
    hide StagesOk, ParentsLast, Acts;
    StagesStable(c, rows, rows', tx.stages, tx.locks);
    if tx.prog.Written? {
      assert tx.prog.id in tx.rows;
    }
  }

  lemma CascadingStable(c: Config, rows: Recs, tx: Tx, rows': Recs)
    requires TxOk(c, rows, tx) && Elsewhere(rows, rows', tx.locks, KeyHeld(tx.prog)) && tx.prog.Cascading?
    ensures TxOk(c, rows', tx)
  {
    hide StagesOk, ParentsLast, CascadeOk, Apart;
    StagesStable(c, rows, rows', tx.stages, tx.locks);
    CascadeOkStable(c, rows, tx, rows');
  }

  lemma SweepingStable(c: Config, rows: Recs, tx: Tx, rows': Recs)
    requires TxOk(c, rows, tx) && Elsewhere(rows, rows', tx.locks, KeyHeld(tx.prog)) && tx.prog.Sweeping?
    ensures TxOk(c, rows', tx)
  {
    hide StagesOk, ParentsLast, TodoOk, Apart, AllSameIds;
    StagesStable(c, rows, rows', tx.stages, tx.locks);
    BaseIds(c, rows, tx);
    TodoStable(rows, rows', Base(tx), tx.prog.sweep, tx.locks);
  }

  lemma MendingStable(c: Config, rows: Recs, tx: Tx, rows': Recs)
    requires TxOk(c, rows, tx) && Elsewhere(rows, rows', tx.locks, KeyHeld(tx.prog)) && tx.prog.Mending?
    ensures TxOk(c, rows', tx)
  {
    hide StagesOk, MendOk;
    assert Apart(rows, rows', tx.locks);
    StagesStable(c, rows, rows', tx.stages, tx.locks);
    MendStable(c, rows, tx, rows');
  }

  // ---------------------------------------------------------------------------------------------
  // What a commit leaves alone
  // ---------------------------------------------------------------------------------------------

  /** Ending a parent needs the locks of all its children: seen from an unlocked child, no parent has ended. */
  lemma CascadeEnds(V: Recs, root: Id, r: Rec, work: seq<Id>, now: int, view: Recs, locks: set<Id>, x: Id, p: Id)
    requires Cascaded(V, root, r, work, |work|, {}, now, view, locks) && LegalEnd(V[root], r)
    requires x in V && x !in locks && p in Parents(V[x]) && p in V
    ensures p in view && SameEnd(StatusOf(V, p), StatusOf(view, p))
  {
    hide CascadeLoop.Progress, Told, Parents;
    var pre, gone := V[root := r], Elems(work) - {root};
    RootHeld(V, root, r, work, |work|, {}, now, view, locks);
    EndOne(V, root, r);
    CascadeLoop.ProgressSettled(pre, root, work, now, view);
    FinalAfter(V, pre, {root}, gone, now, view, p);
    assert CascadeLoop.HeardSoFar(pre, work, |work|, {}, x) == {};
    UnheardParent(pre, work, x, p);
    CascadeLoop.ProgressBounds(pre, root, work, |work|, {}, now, view);
  }

  lemma UnheardParent(pre: Recs, work: seq<Id>, x: Id, p: Id)
    requires x in pre && CascadeLoop.HeardSoFar(pre, work, |work|, {}, x) == {} && p in Parents(pre[x])
    ensures p !in work
  {
    assert work[..|work|] == work;
    assert p in CascadeLoop.HeardSoFar(pre, work, |work|, {}, x) <==> p in work;
  }

  lemma StageEnds(c: Config, rows: Recs, st: Stage, locks: set<Id>, x: Id, p: Id)
    requires StageOk(c, rows, st, locks) && AllSameIds(rows, rows + st.before)
    requires x in rows && x !in locks && p in Parents(rows[x]) && p in rows
    ensures SameEnd(StatusOf(rows + st.before, p), StatusOf(rows + st.after, p))
  {
    hide ReapsRow, Cascaded, Parents;
    var V, V' := rows + st.before, rows + st.after;
    ViewPut(rows, st.before, st.id, st.r);
    IdsLinks(rows, V);
    if st.pass != 2 {
      ReapsShape(c, st.pass, V[st.id], st.r, st.now);
      if IsFinal(st.r.task.status) {
        CascadeEnds(V, st.id, st.r, st.work, st.now, V', locks, x, p);
      } else {
        assert p == st.id ==> !IsFinal(StatusOf(V, p)) by { ReapsRunning(c, st.pass, V[st.id], st.r, st.now); }
      }
    }
  }

  lemma ReapsRunning(c: Config, pass: nat, r: Rec, r': Rec, now: int)
    requires ReapsRow(c, pass, r, r', now)
    ensures r.task.status.Running?
  {}

  lemma {:induction false} StagesEnds(c: Config, rows: Recs, stages: seq<Stage>, locks: set<Id>, k: nat, x: Id, p: Id)
    requires StagesOk(c, rows, stages, locks) && k <= |stages|
    requires x in rows && x !in locks && p in Parents(rows[x]) && p in rows
    ensures SameEnd(StatusOf(rows, p), StatusOf(At(rows, stages, k), p))
  {
    hide StageOk, AllSameIds, Parents;
    if k == 0 {
      assert rows + map[] == rows;
    } else {
      StagesEnds(c, rows, stages, locks, k - 1, x, p);
      assert StageOk(c, rows, stages[k - 1], locks) && Chained(stages, k - 1);
      BeforeIds(c, rows, stages, locks, k - 1);
      StageEnds(c, rows, stages[k - 1], locks, x, p);
    }
  }

  /** The links of every committed row survive a commit. */
  lemma CommitIds(c: Config, rows: Recs, tx: Tx)
    requires TxOk(c, rows, tx) && Finished(tx.prog)
    ensures forall x :: x in rows ==> SameIds(rows[x], (rows + tx.rows)[x])
  {
    if tx.prog.Cascading? {
      hide StagesOk, EndsRow, Cascaded, KidsKnown, TodoOk;
      CascadeIds(c, rows, tx);
    } else if tx.prog.Sweeping? {
      hide StagesOk, TodoOk;
      BaseIds(c, rows, tx);
    } else {
      hide StagesOk, Acts, Submitted, ReplayRec, NoHead, Unreplayed;
      if tx.prog.Written? {
        ActsShape(c, tx.prog.op, tx.prog.id, rows[tx.prog.id], tx.prog.r);
      }
    }
  }

  lemma CascadeIds(c: Config, rows: Recs, tx: Tx)
    requires tx.prog.Cascading? && CascadeOk(c, rows, tx) && Finished(tx.prog)
    ensures AllSameIds(rows, View(rows, tx))
  {
    hide EndsRow, Cascaded, AllSameIds;
    var g := tx.prog;
    assert rows + map[] == rows;
    NoKidsLeft(rows, g);
    RootIds(c, g, rows, {}, NowOf(g.op), View(rows, tx), tx.locks);
    CascadedIds(rows, g.root, g.r, g.work, NowOf(g.op), View(rows, tx), tx.locks);
  }

  lemma CommitEnds(c: Config, rows: Recs, tx: Tx, x: Id)
    requires TxOk(c, rows, tx) && Finished(tx.prog) && x in rows && x !in tx.locks
    ensures ParentsLast(rows, rows + tx.rows, x)
  {
    forall p | p in Parents(rows[x]) && p in rows ensures SameEnd(StatusOf(rows, p), StatusOf(rows + tx.rows, p)) {
      CommitEnd(c, rows, tx, x, p);
    }
  }

  lemma CommitEnd(c: Config, rows: Recs, tx: Tx, x: Id, p: Id)
    requires TxOk(c, rows, tx) && Finished(tx.prog) && x in rows && x !in tx.locks && p in Parents(rows[x]) && p in rows
    ensures SameEnd(StatusOf(rows, p), StatusOf(rows + tx.rows, p))
  {
    if tx.prog.Cascading? {
      hide StagesOk, CascadeOk;
      CascadeEnd(c, rows, tx, x, p);
    } else if tx.prog.Sweeping? {
      hide StagesOk, TodoOk;
      StagesEnds(c, rows, tx.stages, tx.locks, |tx.stages|, x, p);
    } else {
      hide StagesOk, Acts, Submitted, ReplayRec, NoHead, Unreplayed;
      if tx.prog.Written? {
        ActsShape(c, tx.prog.op, tx.prog.id, rows[tx.prog.id], tx.prog.r);
      }
    }
  }

  lemma CascadeEnd(c: Config, rows: Recs, tx: Tx, x: Id, p: Id)
    requires tx.prog.Cascading? && CascadeOk(c, rows, tx) && Finished(tx.prog)
    requires x in rows && x !in tx.locks && p in Parents(rows[x]) && p in rows
    ensures SameEnd(StatusOf(rows, p), StatusOf(rows + tx.rows, p))
  {
    hide EndsRow, Cascaded, Parents;
    var g := tx.prog;
    assert rows + map[] == rows;
    NoKidsLeft(rows, g);
    RootHeld(rows, g.root, g.r, g.work, g.v, {}, NowOf(g.op), View(rows, tx), tx.locks);
    EndsShape(c, g, rows[g.root]);
    CascadeEnds(rows, g.root, g.r, g.work, NowOf(g.op), View(rows, tx), tx.locks, x, p);
  }

  /** A row that is new after a commit. */
  lemma CommitNew(c: Config, rows: Recs, tx: Tx, x: Id)
    requires RowsNamed(rows) && TxOk(c, rows, tx) && Finished(tx.prog) && x in rows + tx.rows && x !in rows
    ensures var r := (rows + tx.rows)[x];
            Parents(r) <= tx.locks && r.task.id == x && x != ""
            && (if r.task.replayOf == "" then r.task.businessKey == KeyHeld(tx.prog) else r.task.replayOf in tx.locks)
  {
    hide StagesOk, Acts, NoHead, Unreplayed, TodoOk, InitialStatus, Waiting, NamesDead, Cascaded, EndsRow, Distinct;
    if tx.prog.Sweeping? {
      BaseIds(c, rows, tx);
    } else if tx.prog.Linking? {
      DistinctElems(tx.prog.t.dependsOn);
    }
  }

  lemma CommitElsewhere(c: Config, rows: Recs, tx: Tx, locks: set<Id>, key: Key)
    requires RowsNamed(rows) && TxOk(c, rows, tx) && Finished(tx.prog) && tx.locks !! locks
    requires key != "" ==> KeyHeld(tx.prog) != key
    ensures Elsewhere(rows, rows + tx.rows, locks, key)
  {
    hide TxOk, Finished, ParentsLast, RowsNamed;
    var rows' := rows + tx.rows;
    OwnLocked(c, rows, tx);
    CommitIds(c, rows, tx);
    forall x | x in rows ensures Parents(rows'[x]) == Parents(rows[x]) {
      IdsParents(rows[x], rows'[x]);
    }
    forall x | x in rows' && x !in rows
      ensures Parents(rows'[x]) !! locks
      ensures if rows'[x].task.replayOf == ""
              then key == "" || rows'[x].task.businessKey != key else rows'[x].task.replayOf !in locks
    {
      CommitNew(c, rows, tx, x);
    }
    forall x | x in locks && x in rows ensures ParentsLast(rows, rows', x) {
      CommitEnds(c, rows, tx, x);
    }
  }

  lemma OwnLocked(c: Config, rows: Recs, tx: Tx)
    requires TxOk(c, rows, tx)
    ensures tx.rows.Keys <= tx.locks
  {}

  lemma NamedKept(c: Config, rows: Recs, tx: Tx)
    requires RowsNamed(rows) && TxOk(c, rows, tx) && Finished(tx.prog)
    ensures RowsNamed(rows + tx.rows)
  {
    hide TxOk, Finished;
    CommitIds(c, rows, tx);
    forall x | x in rows + tx.rows ensures (rows + tx.rows)[x].task.id == x && x != "" {
      if x !in rows {
        CommitNew(c, rows, tx, x);
      } else {
        assert SameIds(rows[x], (rows + tx.rows)[x]);
      }
    }
  }

  lemma EdgesKept(c: Config, rows: Recs, edges: set<Edge>, tx: Tx)
    requires RowsNamed(rows) && EdgesExact(rows, edges) && TxOk(c, rows, tx) && Finished(tx.prog)
    ensures EdgesExact(rows + tx.rows, edges + tx.edges)
  {
    hide StagesOk, TxOk, RowsNamed, Parents;
    var rows' := rows + tx.rows;
    CommitIds(c, rows, tx);
    forall x, p ensures (x, p) in edges + tx.edges <==> ChildOf(rows', p, x) {
      assert (x, p) in edges <==> ChildOf(rows, p, x);
      if x in rows {
        IdsParents(rows[x], rows'[x]);
      }
      OwnEdge(c, rows, tx, x, p);
    }
  }

  lemma OwnEdge(c: Config, rows: Recs, tx: Tx, x: Id, p: Id)
    requires TxOk(c, rows, tx) && Finished(tx.prog)
    ensures (x, p) in tx.edges <==> x in rows + tx.rows && x !in rows && p in Parents((rows + tx.rows)[x])
  {
    hide StagesOk, Acts, NoHead, Unreplayed, TodoOk, InitialStatus, Waiting, NamesDead, Cascaded, EndsRow, Distinct;
    if tx.prog.Sweeping? {
      BaseIds(c, rows, tx);
    } else if tx.prog.Linking? {
      var uniq := tx.prog.uniq;
      DistinctElems(tx.prog.t.dependsOn);
      assert uniq[..tx.prog.n] == uniq;
      assert p in uniq <==> p in ParentSet(uniq);
    }
  }

  // ---------------------------------------------------------------------------------------------
  // Every interleaving
  // ---------------------------------------------------------------------------------------------

  lemma CommitInv(c: Config, a: Db, i: nat, b: Db)
    requires Inv(c, a) && Next(c, a, Commit(i), b)
    ensures Inv(c, b) && Serial(c, a.rows, a.txs[i], b.rows)
  {
    hide GraphInv, EdgesExact, TxOk, Serial, Elsewhere, RowsNamed, Finished;
    var tx := a.txs[i];
    CommitSerial(c, a.rows, tx);
    StagesOf(c, a.rows, tx);
    SerialGraph(c, a.rows, tx, b.rows);
    EdgesKept(c, a.rows, a.edges, tx);
    NamedKept(c, a.rows, tx);
    forall j | j in b.txs ensures TxOk(c, b.rows, b.txs[j]) {
      CommitElsewhere(c, a.rows, tx, a.txs[j].locks, KeyHeld(a.txs[j].prog));
      TxStable(c, a.rows, a.txs[j], b.rows);
    }
  }

  lemma StagesOf(c: Config, rows: Recs, tx: Tx)
    requires TxOk(c, rows, tx)
    ensures StagesOk(c, rows, tx.stages, tx.locks)
  {
    hide StagesOk;
  }

  lemma BeginOk(c: Config, rows: Recs, prog: Prog)
    requires Fresh(prog)
    ensures TxOk(c, rows, Tx({}, map[], {}, prog, [])) && KeyHeld(prog) == ""
  {
    hide Distinct;
  }

  lemma StatementKept(c: Config, db: Db, act: Action, tx: Tx, tx': Tx)
    requires GraphInv(db.rows) && EdgesExact(db.rows, db.edges) && RowsNamed(db.rows) && TxOk(c, db.rows, tx)
    requires TxStep(c, db, act, tx, tx')
    ensures TxOk(c, db.rows, tx')
  {
    hide GraphInv, EdgesExact, RowsNamed, TxOk, CallStep, CascadeStep, SweepStep;
    if CallStep(c, db, act, tx, tx') {
      CallKept(c, db, act, tx, tx');
    } else if CascadeStep(db, act, tx, tx') {
      CascadeKept(c, db, act, tx, tx');
    } else {
      SweepKept(c, db, act, tx, tx');
    }
  }

  lemma StatementInv(c: Config, a: Db, act: Action, b: Db)
    requires Inv(c, a) && Next(c, a, act, b) && !act.Begin? && !act.Commit? && !act.Abort?
    ensures Inv(c, b)
  {
    hide GraphInv, EdgesExact, TxOk, TxStep, RowsNamed, NoHead;
    var tx, tx' := a.txs[act.i], b.txs[act.i];
    StatementKept(c, a, act, tx, tx');
    StepLocks(c, a, act, tx, tx');
    forall j, x | j in a.txs && j != act.i && x in tx'.locks ensures x !in a.txs[j].locks {
      if x !in tx.locks {
        assert Free(a, act.i, x);
      }
    }
    forall j | j in a.txs && j != act.i && KeyHeld(tx'.prog) != ""
      ensures KeyHeld(a.txs[j].prog) != KeyHeld(tx'.prog) {}
  }

  lemma NextInv(c: Config, a: Db, act: Action, b: Db)
    requires Inv(c, a) && Next(c, a, act, b)
    ensures Inv(c, b)
  {
    hide GraphInv, EdgesExact, TxOk, TxStep, RowsNamed;
    match act {
      case Begin(i, prog) => BeginOk(c, a.rows, prog);
      case Commit(i) => CommitInv(c, a, i, b);
      case Abort(i) =>
      case _ => StatementInv(c, a, act, b);
    }
  }

  /** A history of statements, commits and aborts from the empty database. */
  ghost predicate IsHistory(c: Config, dbs: seq<Db>, acts: seq<Action>) {
    |dbs| == |acts| + 1 && dbs[0] == Db(map[], {}, map[])
    && forall n :: 0 <= n < |acts| ==> Next(c, dbs[n], acts[n], dbs[n + 1])
  }

  lemma {:induction false} HistoryInv(c: Config, dbs: seq<Db>, acts: seq<Action>, n: nat)
    requires IsHistory(c, dbs, acts) && n < |dbs|
    ensures Inv(c, dbs[n])
  {
    hide Next, Inv;
    if n == 0 {
      EmptyInv(c);
    } else {
      HistoryInv(c, dbs, acts, n - 1);
      assert Next(c, dbs[n - 1], acts[n - 1], dbs[n]);
      NextInv(c, dbs[n - 1], acts[n - 1], dbs[n]);
    }
  }

  lemma EmptyInv(c: Config)
    ensures Inv(c, Db(map[], {}, map[]))
  {}

  /** No wake-up is lost: at every moment of every interleaving, in the committed rows each blocked task counts exactly
      its unfinished parents, at least one, and has no dead parent under fail-fast. */
  lemma NoLostWakeup(c: Config, dbs: seq<Db>, acts: seq<Action>, n: nat, id: Id)
    requires IsHistory(c, dbs, acts) && n < |dbs| && id in dbs[n].rows && StatusOf(dbs[n].rows, id).Blocked?
    ensures var rows := dbs[n].rows; var w := Waiting(rows, Parents(rows[id]));
            Parents(rows[id]) <= rows.Keys && rows[id].pendingParents == |w| && w != {}
            && (!rows[id].task.policy.IgnoreParentFail? ==> !AnyDead(rows, Parents(rows[id])))
  {
    hide EdgesExact, TxOk, Next, RowsNamed;
    HistoryInv(c, dbs, acts, n);
    assert NodeOk(dbs[n].rows, id);
  }

  /** Serializability: in any interleaving the committed rows move only at commits, each as one call of the reference
      broker would move them, and a reap as its leases one by one. */
  lemma HistorySerial(c: Config, dbs: seq<Db>, acts: seq<Action>, n: nat)
    requires IsHistory(c, dbs, acts) && n < |acts|
    ensures if acts[n].Commit?
            then acts[n].i in dbs[n].txs
                 && Serial(c, dbs[n].rows, dbs[n].txs[acts[n].i], dbs[n + 1].rows)
            else dbs[n + 1].rows == dbs[n].rows
  {
    hide Inv, TxStep, Serial;
    HistoryInv(c, dbs, acts, n);
    assert Next(c, dbs[n], acts[n], dbs[n + 1]);
    if acts[n].Commit? {
      CommitInv(c, dbs[n], acts[n].i, dbs[n + 1]);
    }
  }

  /** Why the parents must be locked: a row inserted on statuses that have gone stale, all parents having ended since,
      waits for a count that nobody will ever bring down. */
  lemma StaleReadStrands(rows: Recs, rows': Recs, t: Task, id: Id, now: int, r: Rec)
    requires Submitted(rows, t, id, now, r) && r.task.status.Blocked? && id !in rows'
             && ParentSet(t.dependsOn) <= rows'.Keys
    requires forall p :: p in ParentSet(t.dependsOn) ==> IsFinal(StatusOf(rows', p))
    ensures var after := rows'[id := r];
            r.pendingParents >= 1 && Waiting(after, Parents(r)) == {} && !NodeOk(after, id) && !GraphInv(after)
  {
    var after, ps := rows'[id := r], ParentSet(t.dependsOn);
    assert Parents(r) == ps;
    assert Waiting(rows, ps) != {};
    assert |Waiting(rows, ps)| >= 1;
    assert Waiting(after, ps) == {};
  }
}
