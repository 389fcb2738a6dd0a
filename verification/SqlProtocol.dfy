/** The SQL backends under row locks: transactions that interleave statement by statement, read committed rows and their
    own writes, and may abort anywhere. */
module SqlProtocol {
  import opened Model
  import opened Deps
  import opened Cascade
  import CascadeLoop
  import opened Spec
  import opened Wiring
  import opened Invariants

  // ---------------------------------------------------------------------------------------------
  // The columns each statement writes
  // ---------------------------------------------------------------------------------------------

  function SqlClaimRow(c: Config, r: Rec, token: Token, now: int): Rec {
    var t := r.task;
    r.(task := t.(status := Running, leaseToken := token, startedAt := if t.startedAt == 0 then now else t.startedAt),
       leaseUntil := now + TtlFor(c, t.queue))
  }

  /** The result column is written even without a result. */
  function SqlAckRow(r: Rec, result: Option<Bytes>, now: int): Rec {
    r.(task := r.task.(status := Completed, result := Kept(result), finishedAt := now, leaseToken := ""),
       leaseUntil := 0, cancelRequested := false)
  }

  function SqlFailRow(c: Config, r: Rec, msg: string, kind: FailKind, at: int, now: int): Rec {
    var attempts := if kind.FailBusiness? then r.task.attempts + 1 else r.task.attempts;
    var throttled := if kind.FailThrottled? then r.task.throttled + 1 else r.task.throttled;
    var capped := kind.FailThrottled? && throttled >= c.throttledMax;
    var lastError := if capped then ThrottledTimes(throttled) else Message(msg);
    var toFailed := match kind {
      case FailBusiness => attempts > r.task.maxRetry
      case FailThrottled => capped
      case FailSkip => true
    };
    if toFailed then
      r.(task := r.task.(status := Failed, lastError := lastError, attempts := attempts, throttled := throttled,
                         finishedAt := now, leaseToken := ""),
         leaseUntil := 0, cancelRequested := false)
    else
      r.(task := r.task.(status := Retrying, lastError := lastError, attempts := attempts, throttled := throttled,
                         runAt := at, leaseToken := ""),
         leaseUntil := 0)
  }

  function SqlCancelRow(r: Rec, why: ErrText, now: int): Rec {
    r.(task := r.task.(status := Canceled, lastError := why, finishedAt := now, leaseToken := ""), leaseUntil := 0)
  }

  function SqlRequeueRow(r: Rec): Rec {
    r.(task := r.task.(status := Pending, leaseToken := ""), leaseUntil := 0, cancelRequested := false)
  }

  /** The inserted row of a submission. */
  function SqlSubmitRow(t: Task, id: Id, d: SubmitDecision, now: int): Rec {
    var canceled := d.status.Canceled?;
    Rec(Task(id, t.businessKey, t.replayOf, t.typ, t.queue, Kept(t.payload), d.status, Kept(t.result),
             if canceled then d.lastError else t.lastError, t.attempts, t.maxRetry, t.leaseLost, t.throttled,
             if t.runAt == 0 then now else t.runAt, t.dependsOn, Policied(t), "", now, t.startedAt,
             if canceled then now else t.finishedAt), d.pendingParents, 0, false)
  }

  /** The inserted row of a replay. */
  function SqlReplayRow(target: Task, gen: Id, payload: Option<Bytes>, now: int): Rec {
    Rec(Task(gen, target.businessKey, target.id, target.typ, target.queue,
             if payload.None? then target.payload else Kept(payload), Pending, None, NoError, 0, target.maxRetry, 0, 0,
             now, [], target.policy, "", now, 0, 0), 0, 0, false)
  }

  /** The two updates of the reaper: pass 0 cancels rows that carry the mark, pass 1 counts a lost lease on
      all others it finds expired, and clears the mark without looking at it. */
  function SqlReapRow(c: Config, pass: nat, r: Rec, now: int): Rec {
    if pass == 0 then SqlCancelRow(r, CanceledByRequest, now).(cancelRequested := false)
    else
      var lost := r.task.leaseLost + 1;
      if lost >= c.leaseLostMax then
        r.(task := r.task.(leaseLost := lost, status := Failed, lastError := LeaseExpiredTimes(lost), finishedAt := now,
                           leaseToken := ""),
           leaseUntil := 0, cancelRequested := false)
      else
        r.(task := r.task.(leaseLost := lost, status := Pending, leaseToken := ""), leaseUntil := 0,
           cancelRequested := false)
  }

  function Policied(t: Task): Policy {
    if t.policy.Unset? then FailFast else t.policy
  }

  /** The single-row operations, four of which may end a task. */
  predicate RowOp(op: Op) {
    op.OpClaim? || op.OpAck? || op.OpFail? || op.OpCancel? || op.OpFinishCanceled? || op.OpRequeue? || op.OpHeartbeat?
  }

  /** The row an operation locks; a claim locks the one it picked. */
  predicate Locks(op: Op, id: Id) {
    match op
    case OpClaim(_, _, _, got) => got == Some(id)
    case OpAck(x, _, _, _) => x == id
    case OpFail(x, _, _, _, _, _) => x == id
    case OpCancel(x, _) => x == id
    case OpFinishCanceled(x, _, _) => x == id
    case OpRequeue(x, _) => x == id
    case OpHeartbeat(x, _, _) => x == id
    case _ => false
  }

  /** The row after the operation, or none when it refuses and rolls back. */
  function RowAfter(c: Config, op: Op, r: Rec): Option<Rec> {
    match op
    case OpClaim(queues, token, now, _) =>
      if r.task.queue in queues && Queued(r) && r.task.runAt <= now && token != ""
      then Some(SqlClaimRow(c, r, token, now)) else None
    case OpAck(_, token, result, now) => if Holds(r, token) then Some(SqlAckRow(r, result, now)) else None
    case OpFail(_, token, msg, kind, at, now) => if Holds(r, token)
                                                 then Some(SqlFailRow(c, r, msg, kind, at, now)) else None
    case OpCancel(_, now) =>
      if IsFinal(r.task.status) then None
      else if r.task.status.Running? then Some(r.(cancelRequested := true))
      else Some(SqlCancelRow(r, CanceledByRequest, now))
    case OpFinishCanceled(_, token, now) =>
      if Holds(r, token) then Some(SqlCancelRow(r, CanceledByRequest, now).(cancelRequested := false)) else None
    case OpRequeue(_, token) => if Holds(r, token) then Some(SqlRequeueRow(r)) else None
    case OpHeartbeat(_, token, now) => if Holds(r, token)
                                       then Some(r.(leaseUntil := now + TtlFor(c, r.task.queue))) else None
    case _ => None
  }

  predicate Acts(c: Config, op: Op, id: Id, r: Rec, r': Rec) {
    RowOp(op) && Locks(op, id) && RowAfter(c, op, r) == Some(r')
  }

  /** What a pass of the reaper does to a row it selected. */
  predicate ReapsRow(c: Config, pass: nat, r: Rec, r': Rec, now: int) {
    pass <= 1 && Expired(r, now) && (pass == 0 ==> r.cancelRequested) && r' == SqlReapRow(c, pass, r, now)
  }

  // ---------------------------------------------------------------------------------------------
  // Transactions
  // ---------------------------------------------------------------------------------------------

  /** A dependency edge: child, parent. */
  type Edge = (Id, Id)

  /** The reaper's place: passes 0 and 1 over leases, pass 2 over blocked rows; no list until the pass has read it. */
  datatype Sweep = Sweep(now: int, pass: nat, todo: Option<seq<Id>>)

  /** How far a transaction has come. */
  datatype Prog =
    // Enqueue: parents locked and read one by one, then the row, then the edges
    | Reading(t: Task, id: Id, now: int, uniq: seq<Id>, read: seq<ParentState>)
    | Linking(t: Task, id: Id, now: int, uniq: seq<Id>, n: nat)
    // Replay: the target locked, looked up among the replayed, copied
    | Seeking(req: ReplayRequest, gen: Id, now: int)
    | Targeted(req: ReplayRequest, gen: Id, now: int, target: Id, unreplayed: bool)
    | Copied(req: ReplayRequest, gen: Id, now: int, target: Id)
    // one row locked and rewritten; a final row starts the cascade
    | Starting(op: Op, id: Id)
    | Written(op: Op, id: Id, r: Rec)
    // the cascade, of a call of its own or of one lease the reaper ended
    | Cascading(op: Op, root: Id, r: Rec, work: seq<Id>, v: nat, kids: Option<seq<Id>>, k: nat, rest: Option<Sweep>)
    // ReapExpired between two rows, and reading the parents of a blocked row without locking them
    | Sweeping(sweep: Sweep)
    | Mending(sweep: Sweep, id: Id, seen: seq<ParentState>)

  /** One row the reaper is done with: its own writes before and after, and the tasks the cascade ended. */
  datatype Stage = Stage(id: Id, pass: nat, now: int, r: Rec, work: seq<Id>, before: Recs, after: Recs)

  /** Locks held, writes not yet committed, and the reaper's finished rows. */
  datatype Tx = Tx(locks: set<Id>, rows: Recs, edges: set<Edge>, prog: Prog, stages: seq<Stage>)

  /** Committed rows and edges, and the open transactions. */
  datatype Db = Db(rows: Recs, edges: set<Edge>, txs: map<nat, Tx>)

  datatype Action =
    | Begin(i: nat, prog: Prog)
    | LockParent(i: nat)
    | Insert(i: nat, d: SubmitDecision)
    | InsertEdge(i: nat)
    | LockTarget(i: nat, x: Id)
    | CheckReplayed(i: nat)
    | InsertCopy(i: nat)
    | LockRow(i: nat)
    | WriteRow(i: nat, r: Rec)
    | ReadKids(i: nat, ids: seq<Id>)
    | LockKid(i: nat)
    | VisitKid(i: nat)
    | NextParent(i: nat)
    | LockExpired(i: nat, ids: seq<Id>)
    | WriteReap(i: nat)
    | EndStage(i: nat)
    | NextPass(i: nat)
    | ListBlocked(i: nat, ids: seq<Id>)
    | LockBlocked(i: nat)
    | ReadParent(i: nat)
    | WriteMend(i: nat, d: SubmitDecision)
    | Commit(i: nat)
    | Abort(i: nat)

  /** What DecideOnSubmit answers on the statuses read. */
  ghost predicate Decides(read: seq<ParentState>, policy: Policy, d: SubmitDecision) {
    (d.status.Canceled? <==> !policy.IgnoreParentFail? && !NoneDead(read, |read|))
    && (d.status.Canceled? ==> d.pendingParents == 0 && NamesFirstDead(read, d.lastError))
    && (!d.status.Canceled? ==> d.pendingParents == |Unfinished(read, |read|)|)
    && (!d.status.Canceled? ==> d.status == if d.pendingParents > 0 then Blocked else Pending)
  }

  /** The submitted id, or a generated one when there is none. */
  predicate NamedRight(t: Task, id: Id) {
    t.replayOf == "" && id != "" && (t.id != "" ==> id == t.id)
  }

  predicate Fresh(prog: Prog) {
    match prog
    case Reading(t, id, _, uniq, read) => NamedRight(t, id) && uniq == Distinct(t.dependsOn) && read == []
    case Seeking(req, gen, _) => gen != "" && (req.executionId == "") != (req.businessKey == "")
    case Starting(op, _) => RowOp(op)
    case Sweeping(sweep) => sweep.pass == 0 && sweep.todo.None?
    case _ => false
  }

  /** No other transaction holds the row. */
  ghost predicate Free(db: Db, i: nat, x: Id) {
    forall j :: j in db.txs && j != i ==> x !in db.txs[j].locks
  }

  /** No committed row heads a chain of this key. */
  ghost predicate NoHead(rows: Recs, key: Key) {
    forall x :: x in rows && rows[x].task.replayOf == "" ==> rows[x].task.businessKey != key
  }

  /** The key an uncommitted submission has entered in the unique chain-head index. */
  function KeyHeld(prog: Prog): Key {
    if prog.Linking? then prog.t.businessKey else ""
  }

  /** The unique chain-head index lets the key in: no committed head, and no other transaction about to make one. */
  ghost predicate KeyFree(db: Db, i: nat, key: Key) {
    key == "" || (NoHead(db.rows, key) && forall j :: j in db.txs && j != i ==> KeyHeld(db.txs[j].prog) != key)
  }

  ghost predicate Unreplayed(rows: Recs, target: Id) {
    forall x :: x in rows ==> rows[x].task.replayOf != target
  }

  /** Committed rows under the transaction's own writes. */
  function View(rows: Recs, tx: Tx): Recs {
    rows + tx.rows
  }

  /** The reaper's own writes up to the last finished row. */
  function Base(tx: Tx): Recs {
    if |tx.stages| == 0 then map[] else tx.stages[|tx.stages| - 1].after
  }

  function NowOf(op: Op): int {
    if op.OpRequeue? then 0 else op.now
  }

  /** What a pass selects. */
  predicate Selected(r: Rec, pass: nat, now: int) {
    Expired(r, now) && (pass == 0 ==> r.cancelRequested)
  }

  predicate AtKid(tx: Tx) {
    tx.prog.Cascading? && tx.prog.v < |tx.prog.work| && tx.prog.kids.Some? && tx.prog.k < |tx.prog.kids.value|
  }

  function Kid(tx: Tx): Id
    requires AtKid(tx)
  {
    tx.prog.kids.value[tx.prog.k]
  }

  function Parent(tx: Tx): Id
    requires AtKid(tx)
  {
    tx.prog.work[tx.prog.v]
  }

  /** The reaper at a row of its list in the given passes. */
  predicate AtRow(tx: Tx) {
    tx.prog.Sweeping? && tx.prog.sweep.todo.Some? && |tx.prog.sweep.todo.value| > 0
  }

  function RowAt(tx: Tx): Id
    requires AtRow(tx)
  {
    tx.prog.sweep.todo.value[0]
  }

  /** The same pass with the first row of the list done. */
  function Rest(sweep: Sweep): Sweep
    requires sweep.todo.Some? && |sweep.todo.value| > 0
  {
    sweep.(todo := Some(sweep.todo.value[1..]))
  }

  /** The reaper is done with row id. */
  function Staged(tx: Tx, id: Id, pass: nat, now: int, r: Rec, work: seq<Id>, rows: Recs, rest: Sweep): Tx {
    tx.(rows := rows, prog := Sweeping(rest), stages := tx.stages + [Stage(id, pass, now, r, work, Base(tx), rows)])
  }

  predicate DueFor(r: Rec, queues: set<string>, now: int) {
    (r.task.status == Pending || r.task.status == Retrying) && r.task.queue in queues && r.task.runAt <= now
  }

  /** What a claim's select for update with SKIP LOCKED takes: among the due rows of its queues that nobody else holds
      the one with the earliest run time, and the smaller id on a tie. Other calls lock the row they are about. */
  ghost predicate Picks(db: Db, i: nat, op: Op, x: Id) {
    op.OpClaim? ==>
      x in db.rows && DueFor(db.rows[x], op.queues, op.now)
      && forall y :: y in db.rows && DueFor(db.rows[y], op.queues, op.now) && Free(db, i, y) ==>
           db.rows[x].task.runAt <= db.rows[y].task.runAt
           && (db.rows[y].task.runAt == db.rows[x].task.runAt ==> NotSmaller(y, x))
  }

  /** One statement of a transaction that enqueues, replays or works on one row. */
  ghost predicate CallStep(c: Config, db: Db, act: Action, tx: Tx, tx': Tx) {
    match act
    case LockParent(i) =>
      tx.prog.Reading? && |tx.prog.read| < |tx.prog.uniq|
      && var p := tx.prog.uniq[|tx.prog.read|];
         p in db.rows && Free(db, i, p)
         && tx' == tx.(locks := tx.locks + {p},
                       prog := tx.prog.(read := tx.prog.read + [ParentState(p, StatusOf(db.rows, p))]))
    case Insert(i, d) =>
      tx.prog.Reading? && |tx.prog.read| == |tx.prog.uniq| && tx.prog.id !in db.rows && Free(db, i, tx.prog.id)
      && KeyFree(db, i, tx.prog.t.businessKey) && Decides(tx.prog.read, Policied(tx.prog.t), d)
      && tx' == Tx(tx.locks + {tx.prog.id}, map[tx.prog.id := SqlSubmitRow(tx.prog.t, tx.prog.id, d, tx.prog.now)],
                   {}, Linking(tx.prog.t, tx.prog.id, tx.prog.now, tx.prog.uniq, 0), [])
    case InsertEdge(_) =>
      tx.prog.Linking? && tx.prog.n < |tx.prog.uniq|
      && tx' == tx.(edges := tx.edges + {(tx.prog.id, tx.prog.uniq[tx.prog.n])}, prog := tx.prog.(n := tx.prog.n + 1))
    case LockTarget(i, x) =>
      tx.prog.Seeking? && x in db.rows && Free(db, i, x)
      && (if tx.prog.req.executionId != "" then x == tx.prog.req.executionId
          else db.rows[x].task.businessKey == tx.prog.req.businessKey)
      && tx' == tx.(locks := tx.locks + {x}, prog := Targeted(tx.prog.req, tx.prog.gen, tx.prog.now, x, false))
    case CheckReplayed(_) =>
      tx.prog.Targeted? && Unreplayed(db.rows, tx.prog.target) && tx' == tx.(prog := tx.prog.(unreplayed := true))
    case InsertCopy(i) =>
      tx.prog.Targeted? && tx.prog.unreplayed && tx.prog.target in db.rows
      && IsFinal(StatusOf(db.rows, tx.prog.target))
      && (StatusOf(db.rows, tx.prog.target).Completed? ==> tx.prog.req.allowCompleted)
      && tx.prog.gen !in db.rows && Free(db, i, tx.prog.gen)
      && tx' == tx.(locks := tx.locks + {tx.prog.gen},
                    rows := map[tx.prog.gen := SqlReplayRow(db.rows[tx.prog.target].task, tx.prog.gen,
                                                            tx.prog.req.payload, tx.prog.now)],
                    prog := Copied(tx.prog.req, tx.prog.gen, tx.prog.now, tx.prog.target))
    case LockRow(i) =>
      tx.prog.Starting? && tx.prog.id in db.rows && Free(db, i, tx.prog.id) && Picks(db, i, tx.prog.op, tx.prog.id)
      && tx' == tx.(locks := tx.locks + {tx.prog.id})
    case WriteRow(_, r) =>
      tx.prog.Starting? && tx.prog.id in tx.locks && tx.prog.id in db.rows
      && Acts(c, tx.prog.op, tx.prog.id, db.rows[tx.prog.id], r)
      && tx' == tx.(rows := map[tx.prog.id := r],
                    prog := if IsFinal(r.task.status)
                            then Cascading(tx.prog.op, tx.prog.id, r, [tx.prog.id], 0, None, 0, None)
                            else Written(tx.prog.op, tx.prog.id, r))
    case _ => false
  }

  /** One statement of a cascade. */
  ghost predicate CascadeStep(db: Db, act: Action, tx: Tx, tx': Tx) {
    match act
    case ReadKids(_, ids) =>
      tx.prog.Cascading? && tx.prog.v < |tx.prog.work| && tx.prog.kids.None?
      && NoDup(ids) && (forall x :: x in ids <==> (x, tx.prog.work[tx.prog.v]) in db.edges)
      && tx' == tx.(prog := tx.prog.(kids := Some(ids), k := 0))
    case LockKid(i) =>
      AtKid(tx) && Kid(tx) in db.rows && Free(db, i, Kid(tx)) && tx' == tx.(locks := tx.locks + {Kid(tx)})
    case VisitKid(_) =>
      AtKid(tx) && Kid(tx) in tx.locks && Kid(tx) in db.rows && Parent(tx) in View(db.rows, tx)
      && var view := View(db.rows, tx);
         var r' := VisitChild(Parent(tx), StatusOf(view, Parent(tx)), view[Kid(tx)], NowOf(tx.prog.op));
         tx' == tx.(rows := tx.rows[Kid(tx) := r'],
                    prog := tx.prog.(work := CascadeLoop.Extend(tx.prog.work, Kid(tx), view[Kid(tx)], r'),
                                     k := tx.prog.k + 1))
    case NextParent(_) =>
      tx.prog.Cascading? && tx.prog.v < |tx.prog.work| && tx.prog.kids.Some? && tx.prog.k == |tx.prog.kids.value|
      && tx' == tx.(prog := tx.prog.(v := tx.prog.v + 1, kids := None, k := 0))
    case _ => false
  }

  /** What a select for update with SKIP LOCKED finds: every row of the pass but those another transaction holds. */
  ghost predicate Selects(db: Db, i: nat, tx: Tx, sweep: Sweep, x: Id) {
    x in db.rows && Free(db, i, x) && Selected(View(db.rows, tx)[x], sweep.pass, sweep.now)
  }

  /** One statement of the reaper. */
  ghost predicate SweepStep(c: Config, db: Db, act: Action, tx: Tx, tx': Tx) {
    match act
    case LockExpired(i, ids) =>
      tx.prog.Sweeping? && tx.prog.sweep.pass <= 1 && tx.prog.sweep.todo.None? && NoDup(ids)
      && (forall x :: x in ids <==> Selects(db, i, tx, tx.prog.sweep, x))
      && tx' == tx.(locks := tx.locks + ParentSet(ids), prog := Sweeping(tx.prog.sweep.(todo := Some(ids))))
    case WriteReap(_) =>
      AtRow(tx) && tx.prog.sweep.pass <= 1 && RowAt(tx) in View(db.rows, tx)
      && var id, pass, now, rest := RowAt(tx), tx.prog.sweep.pass, tx.prog.sweep.now, Rest(tx.prog.sweep);
         var r := SqlReapRow(c, pass, View(db.rows, tx)[id], now);
         tx' == if IsFinal(r.task.status)
                then tx.(rows := tx.rows[id := r],
                         prog := Cascading(OpReap(now, {}, {}), id, r, [id], 0, None, 0, Some(rest)))
                else Staged(tx, id, pass, now, r, [], tx.rows[id := r], rest)
    case EndStage(_) =>
      tx.prog.Cascading? && tx.prog.rest.Some? && tx.prog.v == |tx.prog.work|
      && tx' == Staged(tx, tx.prog.root, tx.prog.rest.value.pass, tx.prog.rest.value.now, tx.prog.r, tx.prog.work,
                       tx.rows, tx.prog.rest.value)
    case NextPass(_) =>
      tx.prog.Sweeping? && tx.prog.sweep.pass <= 1 && tx.prog.sweep.todo == Some([])
      && tx' == tx.(prog := Sweeping(tx.prog.sweep.(pass := tx.prog.sweep.pass + 1, todo := None)))
    case ListBlocked(_, ids) =>
      tx.prog.Sweeping? && tx.prog.sweep.pass == 2 && tx.prog.sweep.todo.None? && NoDup(ids)
      && (forall x :: x in ids <==> x in View(db.rows, tx) && StatusOf(View(db.rows, tx), x).Blocked?)
      && tx' == tx.(prog := Sweeping(tx.prog.sweep.(todo := Some(ids))))
    case LockBlocked(i) =>
      AtRow(tx) && tx.prog.sweep.pass == 2
      && var id := RowAt(tx);
         if id !in db.rows then tx' == tx.(prog := Sweeping(Rest(tx.prog.sweep)))
         else Free(db, i, id)
              && tx' == tx.(locks := tx.locks + {id},
                            prog := if StatusOf(View(db.rows, tx), id).Blocked?
                                    then Mending(Rest(tx.prog.sweep), id, [])
                                    else Sweeping(Rest(tx.prog.sweep)))
    case ReadParent(_) =>
      tx.prog.Mending? && tx.prog.id in View(db.rows, tx)
      && |tx.prog.seen| < |View(db.rows, tx)[tx.prog.id].task.dependsOn|
      && var view := View(db.rows, tx);
         var p := view[tx.prog.id].task.dependsOn[|tx.prog.seen|];
         tx' == tx.(prog := if p in view then tx.prog.(seen := tx.prog.seen + [ParentState(p, StatusOf(view, p))])
                            else Sweeping(tx.prog.sweep))
    case WriteMend(_, d) =>
      tx.prog.Mending? && tx.prog.id in View(db.rows, tx)
      && |tx.prog.seen| == |View(db.rows, tx)[tx.prog.id].task.dependsOn|
      && var id, now, r := tx.prog.id, tx.prog.sweep.now, View(db.rows, tx)[tx.prog.id];
         Decides(tx.prog.seen, r.task.policy, d)
         && tx' == if d.status.Canceled? then
                     var r' := SqlCancelRow(r, d.lastError, now);
                     tx.(rows := tx.rows[id := r'],
                         prog := Cascading(OpReap(now, {}, {}), id, r', [id], 0, None, 0, Some(tx.prog.sweep)))
                   else
                     var r' := if d.status.Pending? then r.(task := r.task.(status := Pending), pendingParents := 0)
                               else r.(pendingParents := d.pendingParents);
                     Staged(tx, id, 2, now, r', [], tx.rows[id := r'], tx.prog.sweep)
    case _ => false
  }

  ghost predicate TxStep(c: Config, db: Db, act: Action, tx: Tx, tx': Tx) {
    CallStep(c, db, act, tx, tx') || CascadeStep(db, act, tx, tx') || SweepStep(c, db, act, tx, tx')
  }

  predicate Finished(prog: Prog) {
    match prog
    case Linking(_, _, _, uniq, n) => n == |uniq|
    case Copied(_, _, _, _) => true
    case Cascading(_, _, _, work, v, _, _, rest) => v == |work| && rest.None?
    case Written(_, _, _) => true
    case Sweeping(sweep) => sweep.pass == 2 && sweep.todo == Some([])
    case _ => false
  }

  ghost predicate Next(c: Config, a: Db, act: Action, b: Db) {
    match act
    case Begin(i, prog) => i !in a.txs && Fresh(prog) && b == a.(txs := a.txs[i := Tx({}, map[], {}, prog, [])])
    case Commit(i) =>
      i in a.txs && Finished(a.txs[i].prog)
      && b == Db(a.rows + a.txs[i].rows, a.edges + a.txs[i].edges, a.txs - {i})
    case Abort(i) => i in a.txs && b == a.(txs := a.txs - {i})
    case _ => act.i in a.txs && act.i in b.txs && b == a.(txs := a.txs[act.i := b.txs[act.i]])
              && TxStep(c, a, act, a.txs[act.i], b.txs[act.i])
  }

  // ---------------------------------------------------------------------------------------------
  // The statements write what the reference writes
  // ---------------------------------------------------------------------------------------------

  /** Acknowledging with a result, or a row without one. */
  predicate AckLossless(op: Op, r: Rec) {
    op.OpAck? ==> op.result.Some? || r.task.result.None?
  }

  /** Column by column the updates are the reference's records, an Ack exactly when it drops no result. */
  lemma ActsOwn(c: Config, op: Op, id: Id, r: Rec, r': Rec)
    requires Acts(c, op, id, r, r')
    ensures Own(c, op, id, r, r') <==> AckLossless(op, r)
    ensures op.OpClaim? ==> r.task.queue in op.queues && r.task.runAt <= op.now && op.token != ""
  {
    if op.OpAck? {
      assert r'.task.result == Kept(op.result);
      assert AckRec(r, op.result, op.now).task.result == if op.result.Some? then Kept(op.result) else r.task.result;
    } else if op.OpFail? {
      FailColumns(c, r, op.msg, op.kind, op.at, op.now);
    }
  }

  /** The reference call that stores what an update stores: an Ack without a result stores an empty one. */
  function Stored(op: Op): Op {
    match op
    case OpAck(x, token, result, now) => OpAck(x, token, if result.None? then Some("") else result, now)
    case _ => op
  }

  /** Every update is the reference's record of the call so stored. */
  lemma ActsStored(c: Config, op: Op, id: Id, r: Rec, r': Rec)
    requires Acts(c, op, id, r, r')
    ensures Own(c, Stored(op), id, r, r') && NowOf(Stored(op)) == NowOf(op)
  {
    if op.OpFail? {
      FailColumns(c, r, op.msg, op.kind, op.at, op.now);
    }
  }

  lemma FailColumns(c: Config, r: Rec, msg: string, kind: FailKind, at: int, now: int)
    ensures SqlFailRow(c, r, msg, kind, at, now) == FailRec(c, r, msg, kind, at, now)
  {}

  /** A row that carried a result before its first run loses it when acknowledged without one. */
  lemma AckDropsResult(r: Rec, b: Bytes, now: int)
    requires r.task.result == Some(b)
    ensures SqlAckRow(r, None, now).task.result == None && AckRec(r, None, now).task.result == Some(b)
  {}

  /** An insert is the reference's new record. */
  lemma InsertColumns(t: Task, id: Id, d: SubmitDecision, now: int)
    requires t.replayOf == ""
    ensures SqlSubmitRow(t, id, d, now) == SubmitRec(t, id, d.status, d.pendingParents, d.lastError, now)
  {}

  lemma ReplayColumns(target: Task, gen: Id, payload: Option<Bytes>, now: int)
    ensures SqlReplayRow(target, gen, payload, now) == ReplayRec(target, gen, payload, now)
  {}

  /** The reaper writes the reference's record exactly when pass 1 meets no cancel mark. */
  lemma ReapAgrees(c: Config, pass: nat, r: Rec, r': Rec, now: int)
    requires ReapsRow(c, pass, r, r', now)
    ensures r' == ReapRec(c, r, now) <==> pass == 0 || !r.cancelRequested
  {}

  /** In either case it writes what a reaper that overlooks the mark in pass 1 would write. */
  lemma ReapOverlooks(c: Config, pass: nat, r: Rec, r': Rec, now: int)
    requires ReapsRow(c, pass, r, r', now)
    ensures r' == ReapRec(c, SeenAs(r, pass == 1), now)
  {}
}
