/** When a lease can and must be reaped, in integer milliseconds. */
module Timing {
  import opened Model
  import opened Cascade
  import opened Spec
  import opened Graph
  import opened Invariants
  import opened Reachable
  import opened Runs

  /** The clock reading of a call; a requeue reads none. */
  function At(op: Op): int {
    if op.OpRequeue? then 0 else op.now
  }

  ghost predicate ClockForward(ops: seq<Op>) {
    forall i, j :: 0 <= i < j < |ops| && !ops[i].OpRequeue? && !ops[j].OpRequeue? ==> At(ops[i]) <= At(ops[j])
  }

  /** Call n sets the lease of id: it claims the task, or is a heartbeat of its holder. */
  ghost predicate Renews(run: Run, n: nat, id: Id) {
    n < |run.ops| && n < |run.states| && id in run.states[n].recs
    && ((run.ops[n].OpClaim? && run.ops[n].got == Some(id))
        || (run.ops[n].OpHeartbeat? && run.ops[n].id == id && Holds(run.states[n].recs[id], run.ops[n].token)))
  }

  ghost predicate RunningAt(run: Run, k: nat, id: Id) {
    k < |run.states| && id in run.states[k].recs && run.states[k].recs[id].task.status.Running?
  }

  /** The lease set by call m ends here. */
  ghost function Due(c: Config, run: Run, m: nat, id: Id): int
    requires Renews(run, m, id)
  {
    At(run.ops[m]) + TtlFor(c, run.states[m].recs[id].task.queue)
  }

  lemma RenewedLease(c: Config, run: Run, m: nat, id: Id)
    requires IsRun(c, run) && Renews(run, m, id)
    ensures id in run.states[m + 1].recs && run.states[m + 1].recs[id].leaseUntil == Due(c, run, m, id)
  {
    hide Doomed;
    assert StepAt(c, run, m);
  }

  /** How a lease moves in one step: only renewals set it. */
  lemma LeaseMoves(c: Config, op: Op, id: Id, r: Rec, r': Rec)
    requires Evolves(c, op, id, r, r') && r'.task.status.Running?
    ensures (op.OpClaim? && op.got == Some(id))
            || (r.task.status.Running? && r'.leaseUntil == r.leaseUntil)
            || (op.OpHeartbeat? && op.id == id && Holds(r, op.token)
                && r'.leaseUntil == op.now + TtlFor(c, r.task.queue))
  {
    hide FailRec;
    if op.OpFail? && Own(c, op, id, r, r') {
      FailLeaves(c, r, op.msg, op.kind, op.at, op.now);
    }
  }

  lemma FailLeaves(c: Config, r: Rec, msg: string, kind: FailKind, at: int, now: int)
    ensures !FailRec(c, r, msg, kind, at, now).task.status.Running?
  {}

  lemma SameQueue(c: Config, run: Run, m: nat, k: nat, id: Id)
    requires IsRun(c, run) && m <= k < |run.states| && id in run.states[m].recs
    ensures |run.states| == |run.ops| + 1
    ensures id in run.states[k].recs && run.states[k].recs[id].task.queue == run.states[m].recs[id].task.queue
  {
    FinalFrozen(c, run, m, k, id);
  }

  /** After a renewal the lease never ends earlier, and with no further renewal it ends exactly then. */
  lemma {:induction false} LeaseSince(c: Config, run: Run, m: nat, k: nat, id: Id)
    requires IsRun(c, run) && ClockForward(run.ops) && Renews(run, m, id) && m < k < |run.states|
    ensures id in run.states[k].recs
    ensures RunningAt(run, k, id) ==> run.states[k].recs[id].leaseUntil >= Due(c, run, m, id)
    ensures RunningAt(run, k, id) && (forall n :: m < n < k ==> !Renews(run, n, id)) ==>
              run.states[k].recs[id].leaseUntil == Due(c, run, m, id)
  {
    hide Evolves, IsRun;
    SameQueue(c, run, m, k, id);
    RenewedLease(c, run, m, id);
    if k > m + 1 {
      LeaseSince(c, run, m, k - 1, id);
      StepRec(c, run, k - 1, id);
      SameQueue(c, run, m, k - 1, id);
      if RunningAt(run, k, id) {
        LeaseMoves(c, run.ops[k - 1], id, run.states[k - 1].recs[id], run.states[k].recs[id]);
        if Renews(run, k - 1, id) {
          RenewedLease(c, run, k - 1, id);
        }
      }
    }
  }

  lemma StepRec(c: Config, run: Run, n: nat, id: Id)
    requires IsRun(c, run) && n < |run.ops| && id in run.states[n].recs
    ensures |run.states| == |run.ops| + 1 && id in run.states[n + 1].recs
    ensures Evolves(c, run.ops[n], id, run.states[n].recs[id], run.states[n + 1].recs[id])
  {
    hide Evolves, RecOk;
    StepFacts(c, run, n);
  }

  /** A reap takes exactly the leases that have run out. */
  lemma ReapsExactly(c: Config, run: Run, k: nat, id: Id)
    requires IsRun(c, run) && k < |run.ops| && run.ops[k].OpReap? && RunningAt(run, k, id)
    ensures id in run.states[k + 1].recs
    ensures var r, r' := run.states[k].recs[id], run.states[k + 1].recs[id];
            if r.leaseUntil < run.ops[k].now && id !in run.ops[k].skip
            then r' == ReapRec(c, SeenAs(r, id in run.ops[k].unseen), run.ops[k].now) && !r'.task.status.Running?
            else r' == r
  {
    hide ReapRec, GraphInv, ChainInv, ReapCall, RecOk, CascadeMove;
    InvAt(c, run, k);
    assert StepAt(c, run, k);
    var s, s', op := run.states[k], run.states[k + 1], run.ops[k];
    ReapCallEffects(c, s, op.now, op.skip, op.unseen, s');
    ReapLeaves(c, SeenAs(s.recs[id], id in op.unseen), op.now);
    NotCascaded(s.recs[id], s'.recs[id]);
  }

  lemma ReapLeaves(c: Config, r: Rec, now: int)
    ensures !ReapRec(c, r, now).task.status.Running?
  {}

  lemma NotCascaded(r: Rec, r': Rec)
    requires r.task.status.Running?
    ensures !CascadeMove(r, r')
  {}

  /** Renewals no further apart than the time to live: beats[0] is the claim or any renewal, and so on. */
  ghost predicate Beating(c: Config, run: Run, id: Id, beats: seq<nat>) {
    (forall x :: 0 <= x < |beats| ==> Renews(run, beats[x], id))
    && (forall x :: 0 <= x < |beats| - 1 ==>
        beats[x] < beats[x + 1] && At(run.ops[beats[x + 1]]) <= Due(c, run, beats[x], id))
  }

  /** A task renewed in time is never reaped: every reap between the first and the last renewal leaves it alone. */
  lemma {:induction false} RenewedNeverReaped(c: Config, run: Run, id: Id, beats: seq<nat>, k: nat)
    requires IsRun(c, run) && ClockForward(run.ops) && Beating(c, run, id, beats) && |beats| >= 2
    requires beats[0] < k < beats[|beats| - 1] && run.ops[k].OpReap? && RunningAt(run, k, id)
    ensures id in run.states[k + 1].recs && run.states[k + 1].recs[id] == run.states[k].recs[id]
    decreases |beats|
  {
    hide IsRun;
    assert Renews(run, beats[0], id) && Renews(run, beats[1], id);
    if k < beats[1] {
      LeaseSince(c, run, beats[0], k, id);
      ReapsExactly(c, run, k, id);
    } else if k > beats[1] {
      RestBeats(c, run, id, beats);
      RenewedNeverReaped(c, run, id, beats[1..], k);
    }
  }

  lemma RestBeats(c: Config, run: Run, id: Id, beats: seq<nat>)
    requires Beating(c, run, id, beats) && |beats| >= 2
    ensures Beating(c, run, id, beats[1..])
  {
    var rest := beats[1..];
    forall x | 0 <= x < |rest| ensures Renews(run, rest[x], id) {
      assert rest[x] == beats[x + 1];
    }
    forall x | 0 <= x < |rest| - 1
      ensures rest[x] < rest[x + 1] && Renews(run, rest[x], id) && At(run.ops[rest[x + 1]]) <= Due(c, run, rest[x], id)
    {
      assert rest[x] == beats[x + 1] && rest[x + 1] == beats[x + 2];
    }
  }

  /** One last renewed by call m and still running is taken by a reap exactly when that reap comes after the
      lease's end. */
  lemma ReapedWhenDue(c: Config, run: Run, m: nat, k: nat, id: Id)
    requires IsRun(c, run) && ClockForward(run.ops) && Renews(run, m, id) && m < k < |run.ops| && run.ops[k].OpReap?
    requires RunningAt(run, k, id) && forall n :: m < n < k ==> !Renews(run, n, id)
    ensures id in run.states[k + 1].recs
    ensures run.ops[k].now > Due(c, run, m, id) && id !in run.ops[k].skip ==>
              run.states[k + 1].recs[id]
              == ReapRec(c, SeenAs(run.states[k].recs[id], id in run.ops[k].unseen), run.ops[k].now)
              && !RunningAt(run, k + 1, id)
    ensures run.ops[k].now <= Due(c, run, m, id) ==> run.states[k + 1].recs[id] == run.states[k].recs[id]
  {
    hide IsRun, ReapRec;
    LeaseSince(c, run, m, k, id);
    ReapsExactly(c, run, k, id);
  }

  // ---- ticks ----

  function TickAt(start: int, interval: int, n: nat): int {
    start + n * interval
  }

  /** Some tick falls in the interval after any moment. */
  lemma NextTick(start: int, interval: int, due: int) returns (n: nat)
    requires interval >= 1 && start <= due
    ensures n >= 1 && due < TickAt(start, interval, n) <= due + interval
  {
    n := (due - start) / interval + 1;
    assert ((due - start) / interval) * interval <= due - start < ((due - start) / interval) * interval + interval;
    assert n * interval == ((due - start) / interval) * interval + interval;
  }

  predicate ReapsAllAt(op: Op, now: int) {
    op.OpReap? && op.now == now && op.skip == {}
  }

  /** The reaper calls at every tick up to the horizon, without delay, and no lease is locked away from it. */
  ghost predicate Ticking(run: Run, start: int, interval: int, horizon: int) {
    forall n: nat :: n >= 1 && TickAt(start, interval, n) <= horizon ==>
      exists k :: 0 <= k < |run.ops| && ReapsAllAt(run.ops[k], TickAt(start, interval, n))
  }

  /** A worker that went silent after call m: its claim is over no later than one reaper interval after its lease
      ran out. */
  lemma ReapedInTime(c: Config, run: Run, m: nat, id: Id, start: int, interval: int) returns (k: nat)
    requires IsRun(c, run) && ClockForward(run.ops) && Renews(run, m, id) && c.defaultTTL > 0
    requires forall n :: m < n < |run.ops| ==> !Renews(run, n, id)
    requires interval >= 1 && start <= Due(c, run, m, id)
             && Ticking(run, start, interval, Due(c, run, m, id) + interval)
    ensures m < k < |run.ops| && run.ops[k].OpReap? && !RunningAt(run, k + 1, id)
    ensures Due(c, run, m, id) < run.ops[k].now <= Due(c, run, m, id) + interval
  {
    hide IsRun;
    var n := NextTick(start, interval, Due(c, run, m, id));
    k :| 0 <= k < |run.ops| && ReapsAllAt(run.ops[k], TickAt(start, interval, n));
    assert At(run.ops[k]) > At(run.ops[m]);
    assert m < k;
    KnownAt(c, run, m, k, id);
    if RunningAt(run, k, id) {
      ReapedWhenDue(c, run, m, k, id);
    } else {
      StepRec(c, run, k, id);
      StaysStopped(c, run.ops[k], id, run.states[k].recs[id], run.states[k + 1].recs[id]);
    }
  }

  lemma KnownAt(c: Config, run: Run, m: nat, k: nat, id: Id)
    requires IsRun(c, run) && m <= k < |run.ops| && id in run.states[m].recs
    ensures |run.states| == |run.ops| + 1 && id in run.states[k].recs
  {
    FinalFrozen(c, run, m, k, id);
  }

  lemma StaysStopped(c: Config, op: Op, id: Id, r: Rec, r': Rec)
    requires Evolves(c, op, id, r, r') && op.OpReap? && !r.task.status.Running?
    ensures !r'.task.status.Running?
  {}

  /** The reaper's period: half the shortest time to live of the consumed queues. */
  method ReapInterval(ttls: map<string, int>) returns (interval: int)
    requires forall q :: q in ttls ==> ttls[q] > 0
    ensures forall q :: q in ttls ==> 2 * interval <= ttls[q]
    ensures ttls != map[] ==> exists q :: q in ttls && interval == ttls[q] / 2
  {
    var minTTL := 0;
    var todo := ttls.Keys;
    while todo != {}
      invariant todo <= ttls.Keys && minTTL >= 0 && (minTTL == 0 ==> todo == ttls.Keys)
      invariant forall q :: q in ttls && q !in todo ==> minTTL <= ttls[q]
      invariant minTTL > 0 ==> exists q :: q in ttls && ttls[q] == minTTL
      decreases todo
    {
      var q :| q in todo;
      todo := todo - {q};
      if minTTL == 0 || ttls[q] < minTTL {
        minTTL := ttls[q];
      }
    }
    assert ttls.Keys == {} ==> ttls == map[];
    interval := minTTL / 2;
  }
}
