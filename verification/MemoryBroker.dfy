/** The in-memory reference broker: one lock, so every method is one atomic step. */
module MemoryBroker {
  import opened Model
  import opened Deps
  import opened Cascade
  import opened CascadeLoop
  import opened Spec
  import opened Plain
  import opened Wiring
  import opened Graph
  import opened Invariants
  import opened Reaping

  /** The record of a new submission, field by field. */
  method Submission(t: Task, id: Id, policy: Policy, dec: SubmitDecision, now: int) returns (r: Rec)
    requires policy == if t.policy.Unset? then FailFast else t.policy
    ensures r == SubmitRec(t, id, dec.status, dec.pendingParents, dec.lastError, now)
  {
    r := Rec(t, dec.pendingParents, 0, false);
    r := r.(task := r.task.(id := id, status := dec.status, policy := policy, createdAt := now));
    r := r.(task := r.task.(payload := Kept(t.payload), result := Kept(t.result)));
    if r.task.runAt == 0 {
      r := r.(task := r.task.(runAt := now));
    }
    r := r.(task := r.task.(leaseToken := ""));
    if dec.status.Canceled? {
      r := r.(task := r.task.(lastError := dec.lastError, finishedAt := now));
    }
  }

  /** The record of a replay: the target's type, queue, retries, policy and key, its payload unless one is given, and
      everything else fresh. */
  method Execution(target: Task, id: Id, given: Option<Bytes>, now: int) returns (r: Rec)
    ensures r == ReplayRec(target, id, given, now)
  {
    var payload := given;
    if payload.None? {
      payload := target.payload;
    } else {
      payload := Kept(payload);
    }
    var t := target.(id := id, replayOf := target.id, payload := payload, status := Pending, runAt := now,
                     createdAt := now);
    t := t.(result := None, lastError := NoError, attempts := 0, leaseLost := 0, throttled := 0, dependsOn := [],
            leaseToken := "", startedAt := 0, finishedAt := 0);
    r := Rec(t, 0, 0, false);
  }

  /** The record after a failure: counters, error text, and whether the task has failed for good. */
  method Failure(c: Config, before: Rec, msg: string, kind: FailKind, retryAt: int, now: int)
    returns (r: Rec, toFailed: bool)
    requires before.task.status.Running?
    ensures r == FailRec(c, before, msg, kind, if retryAt == 0 then now else retryAt, now)
            && toFailed == IsFinal(r.task.status)
    ensures SameShape(before, r) && (toFailed ==> LegalEnd(before, r))
    ensures !toFailed ==> r.task.status.Retrying?
  {
    toFailed := false;
    r := before.(task := before.task.(lastError := Message(msg)));
    match kind {
      case FailBusiness =>
        r := r.(task := r.task.(attempts := r.task.attempts + 1));
        toFailed := r.task.attempts > r.task.maxRetry;
      case FailThrottled =>
        r := r.(task := r.task.(throttled := r.task.throttled + 1));
        if r.task.throttled >= c.throttledMax {
          toFailed := true;
          r := r.(task := r.task.(lastError := ThrottledTimes(r.task.throttled)));
        }
      case FailSkip =>
        toFailed := true;
    }
    if toFailed {
      r := Released(r.(task := r.task.(status := Failed, finishedAt := now)));
      r := r.(cancelRequested := false);
    } else {
      r := r.(task := r.task.(status := Retrying, runAt := if retryAt == 0 then now else retryAt));
      r := Released(r);
    }
  }

  /** No task that is pending or retrying, due and in one of the queues has an earlier run time; on equal run times none
      has an id that starts the chosen one's or is smaller where the two first differ. */
  ghost predicate FirstDue(recs: Recs, queues: set<string>, now: int, best: Id)
    requires best in recs
  {
    forall x :: x in recs && (recs[x].task.status.Pending? || recs[x].task.status.Retrying?)
                && recs[x].task.queue in queues && recs[x].task.runAt <= now ==>
      recs[best].task.runAt <= recs[x].task.runAt
      && (recs[x].task.runAt == recs[best].task.runAt ==> NotSmaller(x, best))
  }

  lemma KnownParents(recs: Recs, deps: seq<Id>, parents: seq<ParentState>)
    requires FromTable(recs, deps, parents)
    ensures forall p :: p in deps ==> p in recs
  {}

  lemma PickedFirst(recs: Recs, queues: set<string>, now: int, best: Id)
    requires Ready(recs, queues, now, best)
    requires forall id :: Ready(recs, queues, now, id) ==> !Before(recs, id, best)
    ensures FirstDue(recs, queues, now, best)
  {
    forall x | x in recs && (recs[x].task.status.Pending? || recs[x].task.status.Retrying?)
               && recs[x].task.queue in queues && recs[x].task.runAt <= now
      ensures recs[best].task.runAt <= recs[x].task.runAt
      ensures recs[x].task.runAt == recs[best].task.runAt ==> NotSmaller(x, best)
    {
      assert Ready(recs, queues, now, x);
      IdOrder(x, best);
    }
  }

  class Broker {
    var recs: Recs
    var children: map<Id, seq<Id>>
    var chains: map<Key, seq<Id>>
    var replayed: set<Id>
    var cfg: Config
    var inited: bool
    var closed: bool

    ghost function Abs(): State
      reads this
    {
      State(recs, chains, replayed)
    }

    /** The children index is exact and every id the broker follows is known. */
    ghost predicate Wired()
      reads this
    {
      IndexExact(recs, children) && ParentsPresent(recs) && ChainsKnown(recs, chains)
    }

    constructor ()
      ensures Wired() && Abs() == State(map[], map[], {}) && !inited && !closed
    {
      recs, children, chains, replayed := map[], map[], map[], {};
      cfg := Config(map[], 0, 0, 0);
      inited, closed := false, false;
    }

    method Init(c: Config)
      modifies this`cfg, this`inited
      ensures cfg == Normalized(c) && inited
      ensures cfg.leaseLostMax > 0 && cfg.throttledMax > 0 && cfg.defaultTTL > 0 && cfg.ttl == c.ttl
      ensures cfg.defaultTTL == (if c.defaultTTL > 0 then c.defaultTTL else 60000)
              && cfg.leaseLostMax == (if c.leaseLostMax > 0 then c.leaseLostMax else 3)
              && cfg.throttledMax == (if c.throttledMax > 0 then c.throttledMax else 100)
    {
      cfg := c;
      if cfg.defaultTTL <= 0 {
        cfg := cfg.(defaultTTL := 60000);
      }
      if cfg.leaseLostMax <= 0 {
        cfg := cfg.(leaseLostMax := 3);
      }
      if cfg.throttledMax <= 0 {
        cfg := cfg.(throttledMax := 100);
      }
      inited := true;
    }

    method Close()
      modifies this`closed
      ensures closed
    {
      closed := true;
    }

    predicate Live()
      reads this
    {
      inited && !closed
    }

    /** The token check: unknown task, or not running, or not this token. */
    method CheckLease(id: Id, token: Token) returns (e: Option<Error>)
      ensures e == LeaseError(recs, id, token)
      ensures e.None? <==> id in recs && Holds(recs[id], token)
    {
      if id !in recs {
        return Some(TaskNotFound(id));
      }
      if !recs[id].task.status.Running? || token == "" || recs[id].task.leaseToken != token {
        return Some(LeaseLost(id));
      }
      e := None;
    }

    // ---- propagateFinal ----

    /** One child of a final parent: decide, write the new count, act. */
    method Visit(p: Id, c: Id, now: int) returns (canceled: bool)
      requires p in recs && c in recs
      modifies this`recs
      ensures recs == old(recs)[c := VisitChild(p, StatusOf(old(recs), p), old(recs[c]), now)]
      ensures canceled <==> !IsFinal(old(recs[c]).task.status) && recs[c].task.status.Canceled?
    {
      var ps := recs[p].task.status;
      var r := recs[c];
      var (left, action) := DecideOnParentFinal(ps, r.task.status, r.task.policy, r.pendingParents);
      r := r.(pendingParents := left);
      canceled := false;
      match action {
        case ChildNone =>
        case ChildWake =>
          if CanTransition(r.task.status, Pending) {
            r := r.(task := r.task.(status := Pending));
          }
        case ChildCancel =>
          if r.task.status.Running? {
            r := r.(cancelRequested := true);
          } else if CanTransition(r.task.status, Canceled) {
            r := CanceledRec(r, ParentFailureReason(p, ps), now);
            canceled := true;
          }
      }
      recs := recs[c := r];
    }

    /** The dependents of a task that has just become final, layer by layer. */
    method PropagateFinal(start: Id, now: int)
      requires IndexExact(recs, children) && start in recs && IsFinal(StatusOf(recs, start))
      modifies this`recs
      ensures Outcome(old(recs), {start}, now, recs)
    {
      hide ToldAll, WorkListOk, Outcome, VisitChild;
      ghost var pre := recs;
      var work := [start];
      ghost var queue, v := [start], 0;
      ProgressStart(pre, start, now);
      while work != []
        invariant Progress(pre, start, queue, v, {}, now, recs)
        invariant work == queue[v..]
        decreases |pre| - v
      {
        QueueBounded(pre, start, queue);
        ProgressParent(pre, start, queue, v, {}, now, recs);
        var p := work[0];
        work := work[1..];
        ghost var done: set<Id> := {};
        for i := 0 to |children[p]|
          invariant Progress(pre, start, queue, v, done, now, recs)
          invariant v < |queue| && p == queue[v] && work == queue[v + 1..]
          invariant done == Elems(children[p][..i])
        {
          var c := children[p][i];
          ChildFresh(pre, children, p, i);
          ProgressVisit(pre, start, queue, v, done, now, recs, c);
          var canceled := Visit(p, c, now);
          if canceled {
            work := work + [c];
            queue := queue + [c];
          }
          done := done + {c};
        }
        AllChildren(pre, children, p);
        ProgressNext(pre, start, queue, v, done, now, recs);
        v := v + 1;
      }
      ProgressFinish(pre, start, queue, now, recs);
    }

    // ---- the operations ----

    /** Writes a final record and settles its dependents in the same critical section. */
    method Finish(id: Id, r: Rec, now: int)
      requires Wired() && id in recs && IsFinal(r.task.status) && r.task.dependsOn == recs[id].task.dependsOn
      modifies this`recs
      ensures FinalStep(old(Abs()), id, r, now, Abs(), Ok) && Wired() && recs.Keys == old(recs.Keys)
    {
      hide Outcome;
      ghost var before := recs;
      recs := recs[id := r];
      ghost var mid := recs;
      WiringKept(before, mid, children);
      PropagateFinal(id, now);
      OutcomeSameDeps(mid, {id}, now, recs);
      WiringKept(mid, recs, children);
    }

    /** Writes a record that stays unfinished. */
    method Put(id: Id, r: Rec)
      requires Wired() && id in recs && r.task.dependsOn == recs[id].task.dependsOn
      modifies this`recs
      ensures PlainStep(old(Abs()), id, r, Abs(), Ok) && Wired()
    {
      ghost var before := recs;
      recs := recs[id := r];
      WiringKept(before, recs, children);
    }

    method Ack(id: Id, token: Token, result: Option<Bytes>, now: int) returns (reply: Reply)
      requires Wired()
      modifies this`recs
      ensures Wired()
      ensures Live() ==> AckStep(old(Abs()), id, token, result, now, Abs(), reply)
      ensures !Live() ==> Refused(old(Abs()), NotReady, Abs(), reply)
    {
      if !Live() { return Err(NotReady); }
      var e := CheckLease(id, token);
      if e.Some? { return Err(e.value); }
      var r := recs[id];
      r := r.(task := r.task.(status := Completed));
      if result.Some? {
        r := r.(task := r.task.(result := Kept(result)));
      }
      r := r.(task := r.task.(finishedAt := now));
      r := Released(r);
      r := r.(cancelRequested := false);
      Finish(id, r, now);
      reply := Ok;
    }

    method Fail(id: Id, token: Token, msg: string, kind: FailKind, retryAt: int, now: int) returns (reply: Reply)
      requires Wired()
      modifies this`recs
      ensures Wired()
      ensures Live() ==>
              FailStep(cfg, old(Abs()), id, token, msg, kind, if retryAt == 0 then now else retryAt, now, Abs(), reply)
      ensures !Live() ==> Refused(old(Abs()), NotReady, Abs(), reply)
    {
      hide IndexExact, Outcome, FailRec;
      if !Live() { return Err(NotReady); }
      var e := CheckLease(id, token);
      if e.Some? { return Err(e.value); }
      var r, toFailed := Failure(cfg, recs[id], msg, kind, retryAt, now);
      if toFailed {
        Finish(id, r, now);
      } else {
        Put(id, r);
      }
      reply := Ok;
    }

    method Cancel(id: Id, now: int) returns (reply: Reply)
      requires Wired()
      modifies this`recs
      ensures Wired()
      ensures Live() ==> CancelStep(old(Abs()), id, now, Abs(), reply)
      ensures !Live() ==> Refused(old(Abs()), NotReady, Abs(), reply)
    {
      if !Live() { return Err(NotReady); }
      if id !in recs { return Err(TaskNotFound(id)); }
      var r := recs[id];
      if IsFinal(r.task.status) { return Err(AlreadyFinal(id)); }
      reply := Ok;
      if r.task.status.Running? {
        Put(id, r.(cancelRequested := true));
        return;
      }
      r := r.(task := r.task.(status := Canceled, lastError := CanceledByRequest, finishedAt := now));
      Finish(id, Released(r), now);
    }

    method FinishCanceled(id: Id, token: Token, now: int) returns (reply: Reply)
      requires Wired()
      modifies this`recs
      ensures Wired()
      ensures Live() ==> FinishCanceledStep(old(Abs()), id, token, now, Abs(), reply)
      ensures !Live() ==> Refused(old(Abs()), NotReady, Abs(), reply)
    {
      if !Live() { return Err(NotReady); }
      var e := CheckLease(id, token);
      if e.Some? { return Err(e.value); }
      var r := recs[id];
      r := r.(task := r.task.(status := Canceled, lastError := CanceledByRequest, finishedAt := now));
      r := Released(r);
      r := r.(cancelRequested := false);
      Finish(id, r, now);
      reply := Ok;
    }

    method Requeue(id: Id, token: Token) returns (reply: Reply)
      requires Wired()
      modifies this`recs
      ensures Wired()
      ensures Live() ==> RequeueStep(old(Abs()), id, token, Abs(), reply)
      ensures !Live() ==> Refused(old(Abs()), NotReady, Abs(), reply)
    {
      if !Live() { return Err(NotReady); }
      var e := CheckLease(id, token);
      if e.Some? { return Err(e.value); }
      var r := recs[id];
      r := r.(task := r.task.(status := Pending));
      r := Released(r);
      r := r.(cancelRequested := false);
      Put(id, r);
      reply := Ok;
    }

    method Heartbeat(id: Id, token: Token, now: int) returns (reply: Reply)
      requires Wired()
      modifies this`recs
      ensures Wired()
      ensures Live() ==> HeartbeatStep(cfg, old(Abs()), id, token, now, Abs(), reply)
      ensures !Live() ==> Refused(old(Abs()), NotReady, Abs(), reply)
    {
      if !Live() { return Err(NotReady); }
      var e := CheckLease(id, token);
      if e.Some? { return Err(e.value); }
      var r := recs[id];
      Put(id, r.(leaseUntil := now + TtlFor(cfg, r.task.queue)));
      reply := if r.cancelRequested then Err(TaskCanceled(id)) else Ok;
    }

    /** The earliest ready task, the smaller id on a tie; map iteration is an arbitrary pick. */
    method PickReady(queues: set<string>, now: int) returns (best: Option<Id>)
      ensures best.None? ==> forall id :: !Ready(recs, queues, now, id)
      ensures best.Some? ==> Ready(recs, queues, now, best.value)
                             && forall id :: Ready(recs, queues, now, id) ==> !Before(recs, id, best.value)
    {
      best := None;
      var todo := recs.Keys;
      while todo != {}
        invariant todo <= recs.Keys
        invariant best.Some? ==> Ready(recs, queues, now, best.value)
        invariant forall id :: id !in todo && Ready(recs, queues, now, id) ==>
                  best.Some? && !Before(recs, id, best.value)
        decreases todo
      {
        var id :| id in todo;
        todo := todo - {id};
        var r := recs[id];
        if r.task.queue in queues && Queued(r) && r.task.runAt <= now {
          assert Ready(recs, queues, now, id);
          if best.None? || Before(recs, id, best.value) {
            ghost var was := best;
            BeforeIrreflexive(recs, id);
            best := Some(id);
            forall x | x !in todo && Ready(recs, queues, now, x) ensures !Before(recs, x, id) {
              if x != id {
                NotBeforeTransitive(recs, x, was.value, id);
              }
            }
          }
        }
      }
    }

    /** One round of Dequeue: claim a ready task, or find that none is ready. */
    method TryDequeue(queues: set<string>, token: Token, now: int) returns (reply: Reply, got: Option<Id>)
      requires Wired()
      modifies this`recs
      ensures Wired()
      ensures Live() ==> reply == Ok && ClaimStep(cfg, old(Abs()), queues, token, now, Abs(), got)
      ensures Live() && got.Some? ==>
                got.value in old(recs) && FirstDue(old(recs), queues, now, got.value)
      ensures !Live() ==> got == None && Refused(old(Abs()), NotReady, Abs(), reply)
    {
      hide IndexExact;
      got := None;
      if !Live() { return Err(NotReady), None; }
      got := PickReady(queues, now);
      reply := Ok;
      if got.Some? {
        PickedFirst(recs, queues, now, got.value);
      }
      if got.Some? {
        var r := recs[got.value];
        r := r.(task := r.task.(status := Running, leaseToken := token));
        r := r.(leaseUntil := now + TtlFor(cfg, r.task.queue));
        if r.task.startedAt == 0 {
          r := r.(task := r.task.(startedAt := now));
        }
        Put(got.value, r);
      }
    }

    // ---- Enqueue and Replay ----

    /** The parents' statuses in order, up to the first unknown parent. */
    method ReadParents(deps: seq<Id>) returns (parents: seq<ParentState>, missing: Option<Id>)
      ensures missing.None? ==> FromTable(recs, deps, parents)
      ensures missing.Some? ==> missing.value in deps && missing.value !in recs && FirstUnknown(recs, deps) == missing
    {
      parents := [];
      for i := 0 to |deps|
        invariant |parents| == i
        invariant forall j :: 0 <= j < i ==>
                  deps[j] in recs && parents[j] == ParentState(deps[j], StatusOf(recs, deps[j]))
      {
        if deps[i] !in recs {
          FirstOf(recs, deps[..i]);
          FirstFound(recs, deps, i);
          return parents, Some(deps[i]);
        }
        parents := parents + [ParentState(deps[i], recs[deps[i]].task.status)];
      }
      missing := None;
    }

    /** Enters id in the children list of each distinct parent. */
    method RegisterChild(id: Id, deps: seq<Id>)
      requires forall p :: p in deps ==> p in children
      modifies this`children
      ensures children == WithChild(old(children), ParentSet(deps), id)
    {
      var seen: set<Id> := {};
      assert WithChild(children, {}, id) == children;
      for i := 0 to |deps|
        invariant seen == Elems(deps[..i])
        invariant children == WithChild(old(children), seen, id)
      {
        var p := deps[i];
        assert deps[..i + 1] == deps[..i] + [p];
        WithChildStep(old(children), seen, id, p);
        if p !in seen {
          seen := seen + {p};
          children := children[p := children[p] + [id]];
        }
      }
      assert deps[..|deps|] == deps;
      assert seen == ParentSet(deps);
    }

    /** The checks before a submission is accepted, in the order the broker makes them. */
    method CheckSubmit(t: Task) returns (e: Option<Error>, parents: seq<ParentState>)
      requires Wired()
      ensures e.Some? ==> !Submittable(Abs(), t) && SubmitError(Abs(), t, e.value)
      ensures e.None? ==> Submittable(Abs(), t) && FromTable(recs, t.dependsOn, parents)
    {
      hide IndexExact;
      parents := [];
      if t.replayOf != "" { return Some(CarriesReplayOf), []; }
      if t.businessKey != "" && t.businessKey in chains && chains[t.businessKey] != [] {
        var tail := chains[t.businessKey][|chains[t.businessKey]| - 1];
        assert tail in chains[t.businessKey];
        return Some(KeyExists(t.businessKey, tail, recs[tail].task.status)), [];
      }
      if t.id != "" && t.id in recs { return Some(TaskExists(t.id)), []; }
      var missing;
      parents, missing := ReadParents(t.dependsOn);
      e := if missing.Some? then Some(TaskNotFound(missing.value)) else None;
    }

    /** Stores a new record and registers it with its parents and its key. */
    method Store(id: Id, r: Rec)
      requires Wired() && id !in recs && Parents(r) <= recs.Keys
      modifies this`recs, this`children, this`chains
      ensures Wired()
      ensures Abs() == State(old(recs)[id := r], Appended(old(chains), r.task.businessKey, id), old(replayed))
    {
      hide IndexExact, WithChild;
      IndexAfterEnqueue(recs, children, id, r);
      RegisterKeys(recs, children, r.task.dependsOn);
      recs := recs[id := r];
      children := children[id := []];
      if r.task.businessKey != "" {
        var chain := if r.task.businessKey in chains then chains[r.task.businessKey] else [];
        chains := chains[r.task.businessKey := chain + [id]];
      }
      RegisterChild(id, r.task.dependsOn);
    }

    /** gen is the id a generator hands out: never empty, never used before. */
    method Enqueue(t: Task, gen: Id, now: int) returns (reply: Reply)
      requires Wired() && gen != "" && gen !in recs
      modifies this`recs, this`children, this`chains
      ensures Wired()
      ensures Live() ==> EnqueueStep(old(Abs()), t, gen, now, Abs(), reply)
      ensures !Live() ==> Refused(old(Abs()), NotReady, Abs(), reply)
    {
      hide IndexExact, SubmitError, Submitted, FromTable, NamesFirstDead, Unfinished, NoneDead;
      if !Live() { return Err(NotReady); }
      var e, parents := CheckSubmit(t);
      if e.Some? { return Err(e.value); }
      var id := if t.id != "" then t.id else gen;
      var policy := if t.policy.Unset? then FailFast else t.policy;
      var dec := DecideOnSubmit(parents, policy);
      DecisionSubmitted(recs, t, id, parents, policy, dec, now);
      var r := Submission(t, id, policy, dec, now);
      Store(id, r);
      reply := Ok;
    }

    method Replay(req: ReplayRequest, gen: Id, now: int) returns (reply: Reply)
      requires Wired() && gen != "" && gen !in recs
      modifies this`recs, this`children, this`chains, this`replayed
      ensures Wired()
      ensures Live() ==> ReplayStep(old(Abs()), req, gen, now, Abs(), reply)
      ensures !Live() ==> Refused(old(Abs()), NotReady, Abs(), reply)
    {
      hide IndexExact;
      if !Live() { return Err(NotReady); }
      if (req.executionId == "") == (req.businessKey == "") { return Err(BadReplayRequest); }
      var target: Id;
      if req.executionId != "" {
        if req.executionId !in recs { return Err(TaskNotFound(req.executionId)); }
        target := req.executionId;
      } else {
        if req.businessKey !in chains || chains[req.businessKey] == [] { return Err(KeyNotFound(req.businessKey)); }
        target := chains[req.businessKey][|chains[req.businessKey]| - 1];
        assert target in chains[req.businessKey];
      }
      if !IsFinal(recs[target].task.status) { return Err(ReplayNotFinal(target)); }
      if target in replayed { return Err(AlreadyReplayed(target)); }
      if recs[target].task.status.Completed? && !req.allowCompleted { return Err(CompletedNotAllowed(target)); }
      var r := Execution(recs[target].task, gen, req.payload, now);
      assert Parents(r) == {};
      Store(gen, r);
      replayed := replayed + {target};
      reply := Ok;
    }

    // ---- ReapExpired ----

    /** One lease: if it has expired, the cancel takes effect, the task fails at the cap, or it goes back to pending. */
    method ReapOne(id: Id, now: int) returns (reaped: bool)
      requires Wired() && id in recs
      modifies this`recs
      ensures Wired() && reaped == Expired(old(recs[id]), now)
      ensures !reaped ==> recs == old(recs)
      ensures reaped ==> ReapedOne(cfg, old(recs), id, now, recs) && recs.Keys == old(recs.Keys)
    {
      hide IndexExact, Outcome;
      var r := recs[id];
      if !r.task.status.Running? || !(r.leaseUntil < now) {
        return false;
      }
      reaped := true;
      if r.cancelRequested {
        r := r.(task := r.task.(status := Canceled, lastError := CanceledByRequest, finishedAt := now));
        r := Released(r);
        r := r.(cancelRequested := false);
        Finish(id, r, now);
        return;
      }
      r := r.(task := r.task.(leaseLost := r.task.leaseLost + 1));
      r := Released(r);
      r := r.(cancelRequested := false);
      if r.task.leaseLost >= cfg.leaseLostMax {
        r := r.(task := r.task.(status := Failed, lastError := LeaseExpiredTimes(r.task.leaseLost), finishedAt := now));
        Finish(id, r, now);
      } else {
        r := r.(task := r.task.(status := Pending));
        Put(id, r);
      }
    }

    /** First pass: every record in arbitrary order. */
    method ReapLeases(now: int) returns (count: nat)
      requires Wired()
      modifies this`recs
      ensures Wired()
      ensures GraphInv(old(recs)) ==> ReapStep(cfg, old(Abs()), now, {}, Abs(), count)
      ensures Overcounted(old(recs)) ==> Overcounted(recs)
      ensures ReapedInTurn(cfg, old(recs), now, recs)
    {
      hide IndexExact, GraphInv, Overcounted, ReapedSoFar, ReapRec, Expired, ParentsPresent, ChainsKnown, Outcome,
           LookedAt, ReapedOne, ReapedInTurn;
      ghost var recs0 := recs;
      LookedAtNone(cfg, recs, now);
      var todo := recs.Keys;
      ghost var seen: set<Id> := {};
      count := 0;
      ReapedNone(cfg, recs0, now);
      while todo != {}
        invariant Wired() && recs.Keys == recs0.Keys && seen == recs0.Keys - todo && todo <= recs0.Keys
        invariant LookedAt(cfg, recs0, seen, now, recs)
        invariant GraphInv(recs0) ==> ReapedSoFar(cfg, recs0, seen, now, recs) && count == |ExpiredIn(recs0, seen, now)|
        invariant Overcounted(recs0) ==> Overcounted(recs)
        decreases todo
      {
        var id :| id in todo;
        todo := todo - {id};
        ghost var before := recs;
        var reaped := ReapOne(id, now);
        ReapOneKeeps(cfg, recs0, seen, now, before, id, recs, reaped);
        LookedAtMore(cfg, recs0, seen, now, before, id, recs);
        if reaped {
          count := count + 1;
        }
        seen := seen + {id};
      }
      LookedAtAll(cfg, recs0, seen, now, recs);
      AllReaped(cfg, recs0, seen, now);
    }

    /** One blocked task whose parents are known: wake it, cancel it, or set its count straight. */
    method RepairOne(id: Id, now: int)
      requires Wired() && id in recs
      modifies this`recs
      ensures Wired() && recs.Keys == old(recs.Keys)
      ensures GraphInv(old(recs)) ==> recs == old(recs)
      ensures Overcounted(old(recs)) ==> Overcounted(recs) && Sound(recs, id)
      ensures Overcounted(old(recs)) ==> forall c :: Sound(old(recs), c) ==> Sound(recs, c)
      ensures RepairedOne(old(recs), id, now, recs)
    {
      hide IndexExact, GraphInv, Overcounted, ChainsKnown, Outcome, ParentsPresent, NodeOk, InitialStatus, Waiting,
           FromTable, NamesFirstDead, Unfinished, NoneDead, NamesDead, HasDeadParent, OpenParents, NamesDeadParent;
      ghost var before := recs;
      var r := recs[id];
      if !r.task.status.Blocked? {
        return;
      }
      var parents, missing := ReadParents(r.task.dependsOn);
      if missing.Some? {
        MissingParent(recs, id, missing.value);
        return;
      }
      var dec := DecideOnSubmit(parents, r.task.policy);
      DecisionFromTable(recs, r.task.dependsOn, parents, r.task.policy, dec);
      RepairDecision(before, id, now, dec);
      DecisionPlain(recs, r.task.dependsOn, r.task.policy, dec.status, dec.pendingParents);
      KnownParents(recs, r.task.dependsOn, parents);
      if dec.status.Pending? {
        Put(id, r.(task := r.task.(status := Pending), pendingParents := 0));
      } else if dec.status.Canceled? {
        r := r.(task := r.task.(status := Canceled, lastError := dec.lastError, finishedAt := now));
        NamedPlain(before, r.task.dependsOn, r.task.dependsOn, dec.lastError);
        Finish(id, r, now);
        RootKept(before[id := r], id, now, recs);
        if Overcounted(before) {
          RepairCanceled(before, id, r, now, recs);
        }
      } else {
        Put(id, r.(pendingParents := dec.pendingParents));
      }
    }

    /** Second pass: repair, again in arbitrary order. */
    method RepairBlocked(now: int)
      requires Wired()
      modifies this`recs
      ensures Wired()
      ensures GraphInv(old(recs)) ==> recs == old(recs)
      ensures Overcounted(old(recs)) ==> Repaired(recs)
      ensures RepairedInTurn(old(recs), now, recs)
    {
      hide IndexExact, GraphInv, Overcounted, ChainsKnown, ParentsPresent, Sound, RepairedOne, RepairedSoFar,
           RepairedInTurn;
      ghost var recs0 := recs;
      RepairedNone(recs, now);
      ghost var seen: set<Id> := {};
      var todo := recs.Keys;
      while todo != {}
        invariant RepairedSoFar(recs0, seen, now, recs) && seen == recs0.Keys - todo
        invariant Wired() && recs.Keys == recs0.Keys && todo <= recs0.Keys
        invariant GraphInv(recs0) ==> recs == recs0
        invariant Overcounted(recs0) ==> Overcounted(recs) && forall c :: c in recs0 && c !in todo ==> Sound(recs, c)
        decreases todo
      {
        var id :| id in todo;
        todo := todo - {id};
        ghost var before := recs;
        RepairOne(id, now);
        RepairedMore(recs0, seen, now, before, id, recs);
        seen := seen + {id};
      }
      RepairedAll(recs0, seen, now, recs);
    }

    /** From a consistent state the result is the order-free reap and nothing needed repair; from a state with lost
        wakes or lost cancels every task still blocked afterwards is sound. */
    method ReapExpired(now: int) returns (reply: Reply, count: nat)
      requires Wired()
      modifies this`recs
      ensures Wired()
      ensures !Live() ==> count == 0 && Refused(old(Abs()), NotReady, Abs(), reply)
      ensures Live() ==> reply == Ok
      ensures Live() && GraphInv(old(recs)) ==> ReapStep(cfg, old(Abs()), now, {}, Abs(), count)
      ensures Live() && Overcounted(old(recs)) ==> Repaired(recs)
      ensures Live() ==> ReapedThenRepaired(cfg, old(recs), now, recs)
    {
      hide GraphInv, Overcounted, Repaired, IndexExact, ReapedInTurn, RepairedInTurn;
      count := 0;
      if !Live() { return Err(NotReady), 0; }
      reply := Ok;
      ghost var s := Abs();
      count := ReapLeases(now);
      if GraphInv(s.recs) {
        ReapEffects(cfg, s, now, {}, Abs(), count);
      }
      RepairBlocked(now);
    }
  }
}
